# Payload-capture glue for OpenTelemetry instrumentations — a Dafny model

This project models the sequential logic of three TypeScript files. Together they add payload and
metadata capture on top of existing OpenTelemetry instrumentations:

- **gRPC server calls** (`serverUtils.ts`). Each server handler type gets a wrapper. The unary and
  client-stream family gets a patched callback. That callback writes the span's status and
  attributes, records the response payload, ends the span, and then forwards `(err, value)`
  unchanged to the user's callback. The server-stream and bidi family gets `finish`/`error`
  listeners. These listeners race, and two flags (the `CALL_SPAN_ENDED` mark on the call and the
  wrapper's local `spanEnded`) ensure that only the first event writes the status and that the
  span ends once. A method path is reduced to its last `/` segment before the ignore list is
  consulted.
- **HTTP hooks** (`http.ts`). `configureHttpInstrumentation` installs a request hook and a response
  hook. A hook the user already configured is wrapped: the new hook runs first, then the original,
  with the same span, message and `this`. A hook does nothing for a span whose context is invalid.
  Otherwise it flattens the headers into attributes. For an incoming message it also attaches a
  body capture. The capture collects chunks and, on the first `end`, sets the payload under the
  body key and removes its data listener.
- **Instrumentation list** (`index.ts`). `getInstrumentations` appends an AWS and an AMQP
  instrumentation to the automatic list. It hands each instrumentation, by name, to at most one
  configurator.

Modules:

| file | module | models |
|---|---|---|
| `wrappers.dfy` | `Wrappers` | `Option` |
| `config.dfy` | `Config` | the user options record |
| `decimal.dfy` | `Decimal` | `Number.prototype.toString()` for the integral status codes, with a reference parser |
| `spans.dfy` | `Spans` | the span as a record (status, attributes, payload records, end count), changed only by folding a trace of span operations |
| `grpc_server.dfy` | `GrpcServer` | handler dispatch, the patched unary callback, the stream event machine |
| `grpc_method_name.dfy` | `GrpcMethodName` | JavaScript `split('/')`, the last-segment rule, `shouldNotTraceServerCall` |
| `http_hooks.dfy` | `HttpHooks` | hook installation, hook effects, body capture |
| `instrumentations.dfy` | `Instrumentations` | list construction and name routing |

Handlers do not change a span in place. They emit a sequence of span operations, and the
resulting span is that sequence applied to the span they were given (`Spans.ApplyAll`). On the HTTP
side, the external calls that act on the span or the message become `Effect`s in a trace. These are
header flattening, attaching a body capture, calling the user's hook, adding a chunk, setting the
payload and removing the data listener.

`http.ts:53-56` and `http.ts:64-67` run the new hook first and the original second;
`HttpHooks.InstallComposes` states that order.

The attribute keys and instrumentation names come from external packages. The model uses the
values those packages define: `rpc.grpc.status_code`, `grpc.error_name`, `grpc.error_message`,
`rpc.response.body`, `http.request.header`, `http.response.header`, `http.request.body`,
`http.response.body`, and the four instrumentation names in `index.ts`. It also assumes that
`new AwsInstrumentation()` and `new AmqplibInstrumentation()` carry the names that `index.ts`
routes on. `SpanStatusCode` has `UNSET = 0`, `OK = 1` and `ERROR = 2`, so the OK code attribute
is `"1"`.

## Model

| member | source | states |
|---|---|---|
| `GrpcServer.Classify` | src/instrumentations/static-instrumentations/grpc-js/serverUtils.ts:172-197 | `unary`, `clientStream` and `client_stream` form the unary family; `serverStream`, `server_stream` and `bidi` form the stream family; every other type is unhandled (each direction of each membership) |
| `GrpcServer.HandleServerFunction` | src/instrumentations/static-instrumentations/grpc-js/serverUtils.ts:164-198 | the original handler is invoked exactly for the six known types: the unary family with the call and the patched callback (carrying the user callback and the payload bound), the stream family with the call only and with finish/error listeners attached; other types get nothing |
| `GrpcServer.HandleUntracedServerFunction` | src/instrumentations/static-instrumentations/grpc-js/serverUtils.ts:204-222 | the same classification: the unary family is invoked with `(call, callback)`, the stream family with `(call)`, other types are not invoked |
| `GrpcServer.TracingIsTransparent` | src/instrumentations/static-instrumentations/grpc-js/serverUtils.ts:164-222 | for every type the traced and untraced wrappers invoke the original in the same cases, with the same call and with a callback in the same cases; the user callback then receives exactly the `(err, value)` the original produced, once |
| `GrpcServer.CompleteUnary` | src/instrumentations/static-instrumentations/grpc-js/serverUtils.ts:119-154 | the patched callback's last three steps are: record the response payload under `rpc.response.body` with the payload bound, end the span, and forward the identical `err` and `value` to the user callback; everything before them is a span write |
| `GrpcServer.CompleteUnaryTraces` | src/instrumentations/static-instrumentations/grpc-js/serverUtils.ts:123-153 | the span operations of the patched callback are the status writes followed by one payload record and one end, and it forwards to the user callback exactly once |
| `GrpcServer.UnaryStatusWithCode` | src/instrumentations/static-instrumentations/grpc-js/serverUtils.ts:123-137 | an error whose code is truthy sets the status to the mapped code with the error message, writes the code's decimal string under `rpc.grpc.status_code`, then the error name and message; nothing else changes |
| `GrpcServer.UnaryStatusWithoutCode` | src/instrumentations/static-instrumentations/grpc-js/serverUtils.ts:123-137 | an error with an absent or zero code leaves status and code attribute untouched and writes only the error name and message |
| `GrpcServer.UnaryStatusSuccess` | src/instrumentations/static-instrumentations/grpc-js/serverUtils.ts:138-144 | no error sets the status to UNSET without a message and `rpc.grpc.status_code` to the OK code; nothing else changes |
| `GrpcServer.UnaryCompletionSpan` | src/instrumentations/static-instrumentations/grpc-js/serverUtils.ts:123-153 | an error with a truthy code sets the mapped status with the message, the code attribute as its decimal string, and the name and message attributes; an error with an absent or zero code leaves the status alone and sets only name and message; no error sets UNSET and the OK code `"1"`; every case adds one payload record and one end |
| `GrpcServer.OnStreamEvent` | src/instrumentations/static-instrumentations/grpc-js/serverUtils.ts:63-101 | an event on a call already marked changes nothing; otherwise it marks the call, sets the local ended flag, and ends the span once unless the local flag was already set |
| `GrpcServer.StreamInertOnceFlagged` | src/instrumentations/static-instrumentations/grpc-js/serverUtils.ts:66-68 | once `CALL_SPAN_ENDED` is set, any further sequence of finish/error events produces no span operation and leaves the flags as they are |
| `GrpcServer.StreamOnlyFirstEventActs` | src/instrumentations/static-instrumentations/grpc-js/serverUtils.ts:66-90 | the span trace of a whole event sequence is the trace of its first event alone |
| `GrpcServer.StreamEndsAtMostOnce` | src/instrumentations/static-instrumentations/grpc-js/serverUtils.ts:54-60 | from any starting flags the span is ended at most once; from fresh flags it is ended exactly once when at least one event arrives, and never otherwise |
| `GrpcServer.StreamFinishFirst` | src/instrumentations/static-instrumentations/grpc-js/serverUtils.ts:63-82 | when `finish` comes first, the status is UNSET with no message, the only attribute change is `rpc.grpc.status_code` = `"1"`, no payload is recorded, and the end count rises by one, whatever follows |
| `GrpcServer.StreamErrorFirst` | src/instrumentations/static-instrumentations/grpc-js/serverUtils.ts:84-101 | when `error` comes first, the status is the mapped gRPC code with the error message, the only attribute changes are the error name and message, and the end count rises by one, whatever follows |
| `GrpcServer.StreamFlaggedCallUntouched` | src/instrumentations/static-instrumentations/grpc-js/serverUtils.ts:66-68 | a call that already carries the mark leaves the span exactly as it was |
| `GrpcMethodName.SplitJoin` | src/instrumentations/static-instrumentations/grpc-js/serverUtils.ts:232 | the modelled `split('/')` loses nothing: joining its pieces with `/` gives back the method name |
| `GrpcMethodName.SplitPiecesSeparatorFree` | src/instrumentations/static-instrumentations/grpc-js/serverUtils.ts:232 | no piece of the split contains `/`, so together with `SplitJoin` the split is the unique cut at every separator |
| `GrpcMethodName.LastAfterSeparator` | src/instrumentations/static-instrumentations/grpc-js/serverUtils.ts:232-234 | the last piece of the split depends only on the text after the final `/` |
| `GrpcMethodName.ParseMethodName` | src/instrumentations/static-instrumentations/grpc-js/serverUtils.ts:232-234 | a backward scan returns the last piece of the split, or the whole name when that piece is empty; the result is a suffix of the name, contains no `/` unless it is the whole name, and is the whole name when the name has no `/` |
| `GrpcMethodName.ShouldNotTraceServerCall` | src/instrumentations/static-instrumentations/grpc-js/serverUtils.ts:227-237 | the answer is the external matcher's verdict on the last `/` piece of the method name, or on the whole name if that piece is empty, with the caller's ignore list passed on as given (absent included); the metadata plays no part |
| `Decimal.ParseIntToString` | src/instrumentations/static-instrumentations/grpc-js/serverUtils.ts:129-132 | the decimal string written for a gRPC code reads back as that code, so among errors with a truthy code the attribute determines the code; success writes the same `"1"` as an error with gRPC code 1 |
| `Decimal.IntToStringInjective` | src/instrumentations/static-instrumentations/grpc-js/serverUtils.ts:129-132 | distinct codes are written as distinct strings |
| `Spans.OkCodeText` | src/instrumentations/static-instrumentations/grpc-js/serverUtils.ts:76-79 | the string written for `SpanStatusCode.OK` is exactly `"1"`, and it reads back as 1 |
| `Spans.ApplyAllEndCount` | src/instrumentations/static-instrumentations/grpc-js/serverUtils.ts:55-59 | the span's end count rises by exactly the number of end operations in the trace |
| `HttpHooks.RunPayloadHook` | src/instrumentations/extentions/http.ts:75-142 | for the request hook (lines 75-105) and the response hook (lines 111-142) alike: with an invalid span context the hook has no effect; otherwise its first effect flattens the message headers under the direction's header prefix, and the only other possible effect is a body capture, which is attached if and only if the context is valid and the message is incoming and targets the direction's body key with the message's `content-encoding` |
| `HttpHooks.InstallComposes` | src/instrumentations/extentions/http.ts:49-67 | with no hook installed the new hook is installed as it is; otherwise the installed hook's effects are the new hook's effects followed by the original's effects for the same span, message and `this`, so the original is never dropped |
| `HttpHooks.ConfigureHttpInstrumentation` | src/instrumentations/extentions/http.ts:31-70 | without both `setConfig` and `_getConfig` nothing is passed to `setConfig`; otherwise `setConfig` is called exactly once, with a config that holds both hooks and keeps every other setting of the current config, or of an empty config when it was undefined |
| `HttpHooks.ConfiguredHooksBehaviour` | src/instrumentations/extentions/http.ts:41-68 | in the config passed to `setConfig`, each direction's hook is exactly the new payload hook when there was none (always so for an undefined config); otherwise it runs the payload hook first and then the user's original with the same arguments |
| `HttpHooks.DeliverBody` | src/instrumentations/extentions/http.ts:93-141 | for the request body listeners (lines 93-104) and the response body listeners (lines 131-141) alike: at most one payload write occurs, for this capture, and it is second to last, followed only by the data listener's removal, which is the last effect whenever the payload is set |
| `HttpHooks.BodyFinalisedOnEnd` | src/instrumentations/extentions/http.ts:95-103 | when the body ends, each chunk before the first `end` is added in order, then the payload is set once under the capture's key and the data listener is removed; events after the end change nothing |
| `HttpHooks.BodyUnfinishedWithoutEnd` | src/instrumentations/extentions/http.ts:95-100 | a body that never ends has all its chunks added and its payload never set |
| `Instrumentations.Route` | src/instrumentations/index.ts:35-51 | a name is routed to a configurator only when that configurator is meant for it, and to none exactly when no configurator is meant for it |
| `Instrumentations.RouteInvertsConfiguratorName` | src/instrumentations/index.ts:36-50 | routing a name gives configurator `c` if and only if the name is `c`'s name: the HTTP, AWS SDK, Redis and amqplib names go to their own configurators |
| `Instrumentations.GetInstrumentations` | src/instrumentations/index.ts:28-54 | the result is the automatic list followed by the AWS and then the AMQP instrumentation, so its length is the automatic length plus two; configurator calls follow list order, each instrumentation is configured at most once and only by the configurator of its name, every known-named instrumentation is configured, and every call carries the caller's options |

## Left out

- `PayloadHandler` (chunk buffering, decompression, truncation, decoding) and `addFlattenedObj` are not part of this model. The calls that act on a span or a message are recorded as effects (`RecordPayload`, `AddChunk`, `SetPayload`, `FlattenHeaders`) and never interpreted, so size limits and header key shapes are not modelled.
- `HttpHooks.RunPayloadHook` does not record the construction of the payload handler (`http.ts:89-92`, `http.ts:125-128`). The constructor runs for every message whose span context is valid, outgoing ones included. For an outgoing message the handler is never used and no effect is recorded; for an incoming message it appears only inside the attached capture (`ListenForBody`).
- `_grpcStatusCodeToOpenTelemetryStatusCode` and `_methodIsIgnored` belong to the external gRPC instrumentation. They are function-valued parameters (`StatusMapper`, `isIgnored`) that the model never interprets.
- `context.bind`, `diag.debug` and the `{}` passed as `this` to the original gRPC handler are runtime plumbing with no state the model tracks. The original handler's return value is not modelled either.
- EventEmitter registration is modelled as finite event sequences delivered in order. Real concurrency and timing are not modelled. When several captures listen to the same message, each capture's effects are derived on their own; how their effects interleave is not modelled.
- `GrpcServer.CompleteUnary` models one invocation of the patched callback. A second invocation by the original handler (it would end the span again) is not modelled.
- `CodeIsTruthy` treats a gRPC code as an integer or absent. The falsy `NaN` is not modelled.
- Every external call (`PayloadHandler`, `addFlattenedObj`, the status mapper, the ignore matcher, the user's hooks and callbacks, the configurators) is assumed to return normally. In the source an exception skips the remaining steps, so the model does not cover these cases. A throwing `PayloadHandler.setPayload` (`serverUtils.ts:146-153`) would skip `span.end()` and the user's callback, against `GrpcServer.CompleteUnary` and `GrpcServer.TracingIsTransparent`. A throwing payload hook (`http.ts:54-55`, `http.ts:65-66`) would skip the user's original hook, against `HttpHooks.InstallComposes`. A throwing configurator (`index.ts:34-52`) would abort `getInstrumentations` before the later instrumentations are configured, against `Instrumentations.GetInstrumentations`.
- Only `undefined` is modelled as an absent config or hook (`None`), matching the `=== undefined` tests at `http.ts:43`, `http.ts:49` and `http.ts:60`. A `null` config (which makes `http.ts:49` throw) and a `null` user hook (which is wrapped and then throws at `http.ts:55` when called) are not modelled.
- `configureHttpInstrumentation` tests for `_getConfig` but calls `getConfig()`. The model takes the two as one capability whose result is the current config.
- `getNodeAutoInstrumentations()` is an input list. The AWS, Redis and amqplib configurators are external: `GetInstrumentations` records their calls and does not perform them. The HTTP configurator's effect on an instrumentation is modelled separately, by `HttpHooks.ConfigureHttpInstrumentation`.
- An instrumentation is seen only through its name. A message is seen through its identity, its `IncomingMessage` test and its headers. A span is seen through its context validity on the HTTP side, and through status, attributes, payload records and end count on the gRPC side.
