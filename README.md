# nats-sys-client system API, modelled in Dafny

This project models the core of the `pkg/sys` package of nats-sys-client: a
client of a NATS cluster's system account. The client asks the servers for
monitoring data: VARZ, CONNZ, SUBSZ, STATSZ and HEALTHZ. It uses two kinds of
request. A point-to-point request goes to one server id and gets one reply.
A `PING` request is broadcast with `System.RequestMany`, which collects every
reply that comes back.

The files:

- `api.dfy`, module `SysApi` (pkg/sys/api.go). It holds:
  - the default durations, the subject templates and the error kinds;
  - the option records `sysClientOpts` and `requestManyOpts`, as classes that the option closures update in place;
  - `NewSysClient`;
  - the collector `System.RequestMany`, as a loop over an abstract trace of deliveries.
- `endpoints.dfy`, module `Endpoints`. It holds what every wrapper does in the same way:
  - one point-to-point request, with its error translation and its decode;
  - the loop that decodes the `PING` replies in order and stops at the first failure.
- `healthz.dfy`, module `SysHealthz`: the `HealthStatus` text codec, `Healthz` and `HealthzPing`.
- `connz.dfy`, `subsz_server.dfy`, `statsz_server.dfy` and `varz.dfy`: the other endpoint wrappers.

The NATS connection is not code here. For one `RequestMany` call, the
connection is a `Transport` value with three parts: whether `Subscribe`
fails, whether `PublishRequest` fails, and the sequence of events during the
wait. There are three kinds of event:

- `Arrive`: the subscription handler runs for a reply. It re-arms the timer
  and puts the reply on the channel.
- `Take`: the `select` takes the oldest reply off the channel.
- `TimerFired`: the `select` takes a value from the timer's channel.

A trace may order `Take` and `TimerFired` either way whenever both are
ready, as Go's `select` may. So the timer can win over a reply that is
already waiting. The wait ends in one of three ways:

- taking a 503 reply gives an error;
- taking the expected count of replies gives success;
- a timer value with the timer running gives success.

If the trace runs out first, the outcome is `Blocked`: the Go call would
still be waiting. Ghost results count the
subscriptions taken and released, so the deferred `Unsubscribe` can be
stated on every return path.

For point-to-point requests, `conn.Request` is a function from a `Request`
to its outcome, which is a reply's data or an error. `json.Unmarshal` into a
response record is an abstract `decode` function. The marshalled request
options are an input, `payload`, which may also be a marshalling error. Each
wrapper returns an `Exchange`: the request it sent, if any, and its result.
So its contract can say which subject and which timeout it used, and that
nothing was sent.

Facts about the code that shape the model:

- The timer is created with `maxWait` and stopped at once (pkg/sys/api.go:168-169).
  Only the subscription handler re-arms it, with `maxInterval` (pkg/sys/api.go:171-173).
  So `maxWait` has no effect, and with no reply the call never returns
  (`SysApi.NoReplyNeverReturns`).
- The handler re-arms the timer before it queues the reply. So a call can
  succeed with an empty result while a reply waits on the channel
  (`SysApi.TimerCanBeatFirstReply`).
- A zero interval is a validation error (pkg/sys/api.go:55-56 and 128-129).
- An empty subject gives `ErrValidation` (pkg/sys/api.go:147-148).
- A 503 reply gives an error whose text says "unauthorized" (pkg/sys/api.go:188-189).
- `MarshalJSON` prints an unknown status with `%v`, which calls `String`
  (pkg/sys/healthz.go:61 and 65-76). So its error text is the same for every
  unknown value.

## Model

| member | source | states |
|---|---|---|
| `SysApi.JsonString` | pkg/sys/api.go:201-203 | the text is the string between two double quotes |
| `SysApi.SprintfSubstitutes` | pkg/sys/connz.go:167 | formatting a template with one `%s` and no other `%` puts the argument in place of the `%s` |
| `SysApi.ServerSubjectFormat` | pkg/sys/api.go:17-20 | every `$SYS.REQ.SERVER.%s.<EP>` template formats to "$SYS.REQ.SERVER." + id + "." + EP |
| `SysApi.ApplySysClientOpt` | pkg/sys/api.go:43-75 | an option fails exactly when its argument is not positive, with an `ErrValidation` error that does not depend on the record; otherwise it overwrites exactly its own fields; a non-positive initial timeout is replaced by the interval; a valid record stays valid |
| `SysApi.FirstSysClientOptError` | pkg/sys/api.go:97-101 | the index of the first option that reports an error: every option before it is valid |
| `SysApi.ApplySysClientOptsFirstError` | pkg/sys/api.go:97-101 | applying options fails exactly when some option is invalid, with the error of the first invalid one |
| `SysApi.ApplySysClientOptsAppend` | pkg/sys/api.go:97-101 | options apply in order: `a + b` is `a`, then `b` on its result, unless `a` already failed |
| `SysApi.ApplySysClientOptsValid` | pkg/sys/api.go:43-75 | from a valid record (timeout and interval positive, count -1 or positive), the options only produce valid records |
| `SysApi.NewClientConfig` | pkg/sys/api.go:91-106 | the record starts at 10s, 300ms, -1 and takes the options in order; a success is valid; a failure carries the first option error |
| `SysApi.SysClientOpts.Defaults` | pkg/sys/api.go:92-96 | a new record holds `DefaultRequestTimeout`, `DefaultRequestInterval` and -1 |
| `SysApi.SysClientOpts.Apply` | pkg/sys/api.go:43-75 | running a closure on the record returns its error and leaves the record unchanged, or updates the record as `ApplySysClientOpt` says |
| `SysApi.NewSysClient` | pkg/sys/api.go:91-106 | returns no client and the first option error, or a new client whose record is `NewClientConfig` of the options |
| `SysApi.ApplyRequestManyOpt` | pkg/sys/api.go:116-144 | a per-call option fails exactly when its argument is not positive, with an `ErrValidation` error; otherwise it overwrites exactly its own field; validity is kept |
| `SysApi.ApplyRequestManyOptsValid` | pkg/sys/api.go:152-162 | starting from the client's valid values, per-call options give a record with count -1 or positive and a positive interval, so the guard at line 171 always holds; their only errors are validation errors |
| `SysApi.RequestManyOpts.FromClient` | pkg/sys/api.go:152-156 | the per-call record starts from the client's timeout, interval and server count |
| `SysApi.RequestManyOpts.Apply` | pkg/sys/api.go:116-144 | running a per-call closure returns its error and leaves the record unchanged, or updates it as `ApplyRequestManyOpt` says |
| `SysApi.StepSession` | pkg/sys/api.go:170-197 | an arriving reply is queued and re-arms the timer when `maxInterval` is positive, and nothing else changes; taking a 503 reply ends the call with an error, whatever was kept; any other reply taken is appended, and either the wait goes on or the call returns with exactly `count` replies; a timer value returns what was kept only when the timer runs; an empty channel or a stopped timer changes nothing |
| `SysApi.RepliesOf` | pkg/sys/api.go:170-175 | the replies among the events that arrive, in arrival order, are never more than the events |
| `SysApi.RunAppend` | pkg/sys/api.go:185-198 | the loop over `a + b` is the loop over `a`, then over `b` from where `a` left off |
| `SysApi.StepKeepsDeliveryOrder` | pkg/sys/api.go:170-194 | one event keeps `res` followed by the channel equal to the earlier replies plus the one that arrived; `res` only grows and holds no 503 reply; a result is a prefix of `res` followed by the channel; the only error is the 503 error |
| `SysApi.RunKeepsDeliveryOrder` | pkg/sys/api.go:170-196 | `res` only grows; `res` followed by the channel is always every reply that arrived, in arrival order; what is returned is a prefix of them with no 503 reply; the only error is the 503 error |
| `SysApi.RunKeepsInvariant` | pkg/sys/api.go:168-196 | the timer runs only once a reply has arrived, so a success comes only after some reply arrived; a success never holds more than an expected count |
| `SysApi.RunCountExact` | pkg/sys/api.go:191-194 | with an expected count and no timer value, a success holds exactly `count` replies |
| `SysApi.NoReplyNeverReturns` | pkg/sys/api.go:168-175 | while no reply arrives, taking and timer values change nothing, so `maxWait` never ends the call |
| `SysApi.TimerCanBeatFirstReply` | pkg/sys/api.go:170-196 | one reply arrives and re-arms the timer, and the timer wins the `select`: the call succeeds with no reply |
| `SysApi.Unavailable503Aborts` | pkg/sys/api.go:187-190 | taking a 503 reply ends the call with an error and no result, however many replies were kept before and whatever would follow |
| `SysApi.QuietTimerReturnsCollected` | pkg/sys/api.go:170-196 | after a reply that does not complete the count is kept, a timer value returns every reply kept, that one included |
| `SysApi.RequestManyGuarantees` | pkg/sys/api.go:146-199 | an error is a validation error, a subscribe or publish error, or the 503 error; a result is a prefix of the replies that arrived, in arrival order, with no 503 reply and at most `count` elements; a success comes only after some reply arrived |
| `SysApi.System.RequestMany` | pkg/sys/api.go:146-199 | the outcome is `RequestManyOutcome`; an empty subject or a bad option fails with `ErrValidation` before any subscribe or publish; a request is published only after a successful subscribe; every return releases the subscription taken; a call still waiting holds it |
| `Endpoints.RequestAndDecode` | pkg/sys/connz.go:172-185 | the one request is sent; a reply is decoded; `ErrNoResponders` becomes `ErrInvalidServerID` only when the wrapper maps it; other errors are returned unchanged; success exactly when a reply came and decoded |
| `Endpoints.NoRespondersTranslation` | pkg/sys/connz.go:173-178 | when the request fails with `ErrNoResponders`, a wrapper that maps it returns `ErrInvalidServerID` naming the id; one that does not returns `ErrNoResponders` as it is |
| `Endpoints.DecodedInOrderUnique` | pkg/sys/connz.go:198-206 | decoding replies in order and stopping at the first failure gives a single possible result |
| `Endpoints.DecodeReplies` | pkg/sys/connz.go:198-206 | the result has one record per reply, in reply order, or the error of the first reply that does not decode |
| `Endpoints.PingAndDecode` | pkg/sys/connz.go:188-207 | a marshalling error is returned; otherwise `RequestMany` runs with no per-call option, its error is returned unchanged, and its replies are decoded in order |
| `Endpoints.PingResultBound` | pkg/sys/connz.go:194-206 | a successful `…Ping` never has more records than replies arrived, and it comes only after some reply arrived |
| `SysHealthz.ParseHealthStatus` | pkg/sys/healthz.go:37-50 | exactly `"ok"`, `"na"` and `"error"`, with their quotes, parse to a known status; any other input is an error naming the input |
| `SysHealthz.MarshalJSON` | pkg/sys/healthz.go:52-63 | the three known statuses give one of the accepted texts; any other value is the error "unknown health status: unknown health status", because `%v` prints the value through `String` |
| `SysHealthz.String` | pkg/sys/healthz.go:65-76 | exactly the known statuses give a name whose JSON string is accepted; any other value gives "unknown health status" |
| `SysHealthz.StringIsMarshalledName` | pkg/sys/healthz.go:52-76 | for a known status, `String` is the marshalled text without its quotes |
| `SysHealthz.UnknownStatusesShareError` | pkg/sys/healthz.go:61 | any two unknown values give the same marshalling error |
| `SysHealthz.AcceptedTextsDiffer` | pkg/sys/healthz.go:38-44 | the three accepted texts are pairwise different |
| `SysHealthz.MarshalThenParse` | pkg/sys/healthz.go:37-63 | for each known status, unmarshalling the marshalled text gives the status back |
| `SysHealthz.ParseThenMarshal` | pkg/sys/healthz.go:37-63 | for each accepted text, marshalling the unmarshalled status gives the text back |
| `SysHealthz.HealthStatusVar.UnmarshalJSON` | pkg/sys/healthz.go:37-50 | an accepted text is stored as its status; any other input returns an error and leaves the variable untouched |
| `SysHealthz.HealthzSubject` | pkg/sys/api.go:20 | the HEALTHZ subject of an id is "$SYS.REQ.SERVER." + id + ".HEALTHZ" |
| `SysHealthz.Healthz` | pkg/sys/healthz.go:79-103 | an empty id is an `ErrValidation` error and nothing is sent; otherwise one request to the HEALTHZ subject with the client's timeout, `ErrNoResponders` mapped to `ErrInvalidServerID`, the reply decoded |
| `SysHealthz.HealthzPing` | pkg/sys/healthz.go:105-124 | `RequestMany` on "$SYS.REQ.SERVER.PING.HEALTHZ" with no per-call options; its error is returned; its replies are decoded in order, failing fast |
| `SysConnz.ConnzSubject` | pkg/sys/api.go:18 | the CONNZ subject of an id is "$SYS.REQ.SERVER." + id + ".CONNZ" |
| `SysConnz.Connz` | pkg/sys/connz.go:162-186 | an empty id is an `ErrValidation` error and nothing is sent; otherwise one request to the CONNZ subject with `DefaultRequestTimeout`, not the client's timeout; `ErrNoResponders` mapped; the reply decoded |
| `SysConnz.ConnzPing` | pkg/sys/connz.go:188-207 | `RequestMany` on "$SYS.REQ.SERVER.PING.CONNZ" with no per-call options; its error is returned; its replies are decoded in order, failing fast |
| `SysSubsz.SubszSubject` | pkg/sys/api.go:19 | the SUBSZ subject of an id is "$SYS.REQ.SERVER." + id + ".SUBSZ" |
| `SysSubsz.ServerSubsz` | pkg/sys/subsz_server.go:61-85 | an empty id is an `ErrValidation` error and nothing is sent; otherwise one request to the SUBSZ subject with `DefaultRequestTimeout`; `ErrNoResponders` mapped; the reply decoded |
| `SysSubsz.ServerSubszPing` | pkg/sys/subsz_server.go:87-106 | `RequestMany` on "$SYS.REQ.SERVER.PING.SUBSZ" with no per-call options; its error is returned; its replies are decoded in order, failing fast |
| `SysStatsz.ServerStatsz` | pkg/sys/statsz_server.go:68-92 | for a template whose only verb is one `%s`: an empty id is an `ErrValidation` error and nothing is sent; otherwise one request to the STATSZ template formatted with the id, with the client's timeout; `ErrNoResponders` mapped; the reply decoded |
| `SysStatsz.ServerStatszPing` | pkg/sys/statsz_server.go:94-113 | for a template whose only verb is one `%s`: `RequestMany` on the STATSZ template formatted with "PING", with no per-call options; its error is returned; its replies are decoded in order, failing fast |
| `SysVarz.VarzSubject` | pkg/sys/api.go:17 | the VARZ subject of an id is "$SYS.REQ.SERVER." + id + ".VARZ" |
| `SysVarz.Varz` | pkg/sys/varz.go:241-259 | no id check: one request to the VARZ subject with the client's timeout; every request error is returned unchanged; the reply decoded |
| `SysVarz.VarzDiffers` | pkg/sys/varz.go:241-251 | for an empty id, `Varz` still sends to "$SYS.REQ.SERVER..VARZ" and returns `ErrNoResponders` as it is |
| `SysVarz.VarzPing` | pkg/sys/varz.go:261-280 | `RequestMany` on "$SYS.REQ.SERVER.PING.VARZ" with no per-call options; its error is returned; its replies are decoded in order, failing fast |

## Left out

- Goroutines are replaced by a sequential trace of events. The reply channel is an unbounded queue: its 100-slot buffer, and a handler blocked on a full buffer, are not modelled.
- Go's `select` picks at random when a reply and a timer value are both ready. The model covers this by allowing every order: it proves what holds for all traces, not how likely each one is.
- Timers as clocks: durations are plain numbers, and a timer value is an event in the trace. The model does not say how long a call takes, only which events end it. Once re-armed, the timer may fire at any later point of a trace, so the model does not capture that each arriving reply restarts the countdown.
- `time.Duration` is an `int64`. The model uses unbounded integers, with no overflow.
- `nats.NewInbox` and its uniqueness: the model covers one call, so isolation between concurrent calls is not modelled.
- The payload `RequestMany` publishes: it reaches `PublishRequest` and nothing in the model depends on it.
- The NATS client (`Subscribe`, `PublishRequest`, `Request`, `Unsubscribe`) and `encoding/json` are library code. They become the abstract `Transport`, `conn` and `decode`.
- Marshalling the request options, which also comes from `encoding/json`, is the `payload` input.
- Error texts are kept only where they carry meaning. Wrapping chains are flattened: `errors.Is` against `ErrValidation`, `ErrInvalidServerID` or `ErrNoResponders` is a constructor test.
- The response records (`VarzResp`, `ConnzResp`, `SubszResp`, `ServerStatszResp`, `HealthzResp`, `ServerInfo` and the option records) are schemas only. Each wrapper is generic in its record type.
- Their floating-point fields are out of scope.
- `Jsz`, `JszPing`, their subject template and the value of `srvStatszSubj` are not part of this model. `ServerStatsz` and `ServerStatszPing` take the template as a parameter.
- `SysStatsz.ServerStatsz` and `SysStatsz.ServerStatszPing` require a template whose only verb is one `%s`. For any other template, `fmt.Sprintf` prints `%!` error markers, and the model does not cover that.
- The `ConnState` values `ConnOpen`, `ConnClosed` and `ConnAll` are constants 0, 1 and 2. No operation of the package uses them.
- examples/main.go, a command-line tool, is not modelled.
- The test files are not modelled.
