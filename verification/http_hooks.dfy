/** Payload and header capture for the HTTP instrumentation: installing the
    request and response hooks into the instrumentation's configuration
    (wrapping any hook the user already had), what those hooks do to a span
    and a message, and how a message body is captured once it ends.

    The payload handler (`PayloadHandler`) and header flattening
    (`addFlattenedObj`) are not part of this model: their calls are recorded
    as effects and never interpreted. */
module HttpHooks {
  import opened Wrappers
  import opened Config

  datatype HeaderValue = Text(text: string) | Values(values: seq<string>) | Number(n: int)

  type Headers = map<string, HeaderValue>

  const CONTENT_ENCODING := "content-encoding"

  // Attribute keys of the payload and header attributes.
  const HTTP_REQUEST_HEADER := "http.request.header"
  const HTTP_RESPONSE_HEADER := "http.response.header"
  const HTTP_REQUEST_BODY := "http.request.body"
  const HTTP_RESPONSE_BODY := "http.response.body"

  datatype Direction = Request | Response

  function HeaderPrefix(d: Direction): string {
    match d
    case Request => HTTP_REQUEST_HEADER
    case Response => HTTP_RESPONSE_HEADER
  }

  function BodyKey(d: Direction): string {
    match d
    case Request => HTTP_REQUEST_BODY
    case Response => HTTP_RESPONSE_BODY
  }

  /** A span, seen only through the validity of its span context. */
  datatype SpanRef = SpanRef(id: nat, contextValid: bool)

  /** A request or response; `incoming` is `instanceof IncomingMessage`.
      Both kinds expose their headers (`headers` or `getHeaders()`). */
  datatype HttpMessage = HttpMessage(id: nat, incoming: bool, headers: Headers)

  /** The `this` a hook is called with. */
  datatype ThisArg = NoThis | ThisObject(id: nat)

  /** A hook in the instrumentation config: one of the payload hooks built
      here, a hook the user supplied, or the wrapper that runs `first` and
      then `second`. */
  datatype Hook =
    | PayloadHook(direction: Direction, options: Options)
    | UserHook(id: nat)
    | Chained(first: Hook, second: Hook)

  /** The payload handler built for one message, with the span and key it
      will write to. */
  datatype Capture = Capture(span: SpanRef, key: string, options: Options, encoding: Option<HeaderValue>)

  type Chunk = seq<bv8>

  datatype Effect =
    | FlattenHeaders(span: SpanRef, prefix: string, headers: Headers)
    | ListenForBody(message: nat, capture: Capture)
    | CallUserHook(id: nat, thisArg: ThisArg, hookSpan: SpanRef, hookMessage: HttpMessage)
    | AddChunk(capture: Capture, chunk: Chunk)
    | SetPayload(capture: Capture)
    | RemoveDataListener(message: nat, capture: Capture)

  function EncodingOf(headers: Headers): Option<HeaderValue> {
    if CONTENT_ENCODING in headers then Some(headers[CONTENT_ENCODING]) else None
  }

  /** The body of `createHttpRequestHook` / `createHttpResponseHook`: nothing
      for a span with an invalid context; otherwise the headers are flattened
      under the direction's prefix, and for an incoming message a body capture
      under the direction's body key is attached. */
  function RunPayloadHook(d: Direction, options: Options, span: SpanRef, message: HttpMessage): (effects: seq<Effect>)
    ensures !span.contextValid ==> effects == []
    ensures |effects| == (if !span.contextValid then 0 else if message.incoming then 2 else 1)
    ensures span.contextValid ==> |effects| >= 1 && effects[0] == FlattenHeaders(span, HeaderPrefix(d), message.headers)
    ensures (exists i :: 0 <= i < |effects| && effects[i].ListenForBody?) <==> span.contextValid && message.incoming
    ensures forall i :: 0 <= i < |effects| && effects[i].ListenForBody? ==>
      effects[i] == ListenForBody(message.id, Capture(span, BodyKey(d), options, EncodingOf(message.headers)))
  {
    if !span.contextValid then []
    else
      var capture := Capture(span, BodyKey(d), options, EncodingOf(message.headers));
      var effects := [FlattenHeaders(span, HeaderPrefix(d), message.headers)]
        + (if message.incoming then [ListenForBody(message.id, capture)] else []);
      assert message.incoming ==> effects[1].ListenForBody?;
      effects
  }

  /** Calling a hook with `this`, a span and a message. */
  function RunHook(h: Hook, thisArg: ThisArg, span: SpanRef, message: HttpMessage): seq<Effect> {
    match h
    case PayloadHook(d, options) => RunPayloadHook(d, options, span, message)
    case UserHook(id) => [CallUserHook(id, thisArg, span, message)]
    case Chained(first, second) => RunHook(first, NoThis, span, message) + RunHook(second, thisArg, span, message)
  }

  /** Installing a hook where there may already be one. */
  function Install(existing: Option<Hook>, hook: Hook): Hook {
    match existing
    case None => hook
    case Some(original) => Chained(hook, original)
  }

  /** With nothing installed the new hook stands alone; otherwise the
      installed hook runs the new hook first and then the original with the
      same span, message and `this`, so the original's effects all remain. */
  lemma InstallComposes(existing: Option<Hook>, d: Direction, options: Options, thisArg: ThisArg,
                        span: SpanRef, message: HttpMessage)
    ensures existing.None? ==> Install(existing, PayloadHook(d, options)) == PayloadHook(d, options)
    ensures existing.Some? ==>
      RunHook(Install(existing, PayloadHook(d, options)), thisArg, span, message)
      == RunPayloadHook(d, options, span, message) + RunHook(existing.value, thisArg, span, message)
  {
  }

  datatype HttpConfig = HttpConfig(requestHook: Option<Hook>, responseHook: Option<Hook>, rest: map<string, string>)

  /** An instrumentation: whether it has `setConfig` and `_getConfig`
      functions, and what `getConfig()` returns (`None` for `undefined`). */
  datatype HttpInstrumentation = HttpInstrumentation(hasSetConfig: bool, hasGetConfig: bool, config: Option<HttpConfig>)

  const EMPTY_CONFIG := HttpConfig(None, None, map[])

  /** `configureHttpInstrumentation`, as the list of configs passed to
      `setConfig`. */
  function ConfigureHttpInstrumentation(inst: HttpInstrumentation, options: Options): (calls: seq<HttpConfig>)
    ensures !inst.hasSetConfig || !inst.hasGetConfig ==> calls == []
    ensures inst.hasSetConfig && inst.hasGetConfig ==>
      && |calls| == 1
      && calls[0].requestHook.Some?
      && calls[0].responseHook.Some?
      && calls[0].rest == inst.config.OrIfAbsent(EMPTY_CONFIG).rest
  {
    if !inst.hasSetConfig || !inst.hasGetConfig then []
    else
      var config := inst.config.OrIfAbsent(EMPTY_CONFIG);
      var withResponse := config.(responseHook := Some(Install(config.responseHook, PayloadHook(Response, options))));
      var withBoth := withResponse.(requestHook := Some(Install(config.requestHook, PayloadHook(Request, options))));
      [withBoth]
  }

  /** What the configured hooks do: each runs the payload hook of its
      direction first and then, if there was one, the user's original hook
      with the same arguments; with no original (an undefined config in
      particular) it is the payload hook alone. */
  lemma ConfiguredHooksBehaviour(inst: HttpInstrumentation, options: Options, thisArg: ThisArg,
                                 span: SpanRef, message: HttpMessage)
    requires inst.hasSetConfig && inst.hasGetConfig
    ensures var before := inst.config.OrIfAbsent(EMPTY_CONFIG);
            var after := ConfigureHttpInstrumentation(inst, options)[0];
      && (before.responseHook.None? ==> after.responseHook == Some(PayloadHook(Response, options)))
      && (before.requestHook.None? ==> after.requestHook == Some(PayloadHook(Request, options)))
      && (before.responseHook.Some? ==>
            RunHook(after.responseHook.value, thisArg, span, message)
            == RunPayloadHook(Response, options, span, message) + RunHook(before.responseHook.value, thisArg, span, message))
      && (before.requestHook.Some? ==>
            RunHook(after.requestHook.value, thisArg, span, message)
            == RunPayloadHook(Request, options, span, message) + RunHook(before.requestHook.value, thisArg, span, message))
  {
  }

  // ----- Body capture -----

  datatype MessageEvent = Data(chunk: Chunk) | EndOfBody

  /** The 'data' listener and the one-shot 'end' listener of an attached
      capture, fed the message's events in order: chunks are added until the
      first end, which sets the payload and removes the data listener; nothing
      after it is heard. */
  function DeliverBody(c: Capture, message: nat, events: seq<MessageEvent>): (effects: seq<Effect>)
    ensures forall i :: 0 <= i < |effects| && effects[i].SetPayload? ==>
      && effects[i] == SetPayload(c)
      && i == |effects| - 2
      && effects[|effects| - 1] == RemoveDataListener(message, c)
    decreases |events|
  {
    if |events| == 0 then []
    else match events[0]
      case Data(chunk) => [AddChunk(c, chunk)] + DeliverBody(c, message, events[1..])
      case EndOfBody => [SetPayload(c), RemoveDataListener(message, c)]
  }

  predicate AllData(events: seq<MessageEvent>) {
    forall i :: 0 <= i < |events| ==> events[i].Data?
  }

  function AddChunks(c: Capture, events: seq<MessageEvent>): (effects: seq<Effect>)
    requires AllData(events)
  {
    seq(|events|, i requires 0 <= i < |events| => AddChunk(c, events[i].chunk))
  }

  /** The body ends: every chunk before the first end is added in order, the
      payload is set exactly once under the capture's key, the data listener
      is removed, and anything after the end is ignored. */
  lemma {:induction false} BodyFinalisedOnEnd(c: Capture, message: nat, before: seq<MessageEvent>, after: seq<MessageEvent>)
    requires AllData(before)
    ensures DeliverBody(c, message, before + [EndOfBody] + after)
      == AddChunks(c, before) + [SetPayload(c), RemoveDataListener(message, c)]
    decreases |before|
  {
    var events := before + [EndOfBody] + after;
    if |before| == 0 {
      assert events[0] == EndOfBody;
    } else {
      assert events[0] == before[0];
      assert events[1..] == before[1..] + [EndOfBody] + after;
      BodyFinalisedOnEnd(c, message, before[1..], after);
      assert AddChunks(c, before) == [AddChunk(c, before[0].chunk)] + AddChunks(c, before[1..]);
    }
  }

  /** The body never ends: chunks are added, the payload is never set. */
  lemma {:induction false} BodyUnfinishedWithoutEnd(c: Capture, message: nat, events: seq<MessageEvent>)
    requires AllData(events)
    ensures DeliverBody(c, message, events) == AddChunks(c, events)
    decreases |events|
  {
    if |events| > 0 {
      BodyUnfinishedWithoutEnd(c, message, events[1..]);
      assert AddChunks(c, events) == [AddChunk(c, events[0].chunk)] + AddChunks(c, events[1..]);
    }
  }
}
