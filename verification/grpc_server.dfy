/** The server side of the gRPC instrumentation: which wrapper a handler type
    gets, what the patched unary callback does to the span before handing the
    result on, and the finish/error event machine of streaming calls. */
module GrpcServer {
  import opened Wrappers
  import opened Spans

  /** A gRPC `ServiceError`; its numeric code may be absent. */
  datatype ServiceError = ServiceError(code: Option<int>, name: string, message: string)

  /** A JavaScript number in a boolean position: absent and zero are false. */
  predicate CodeIsTruthy(code: Option<int>) {
    code.Some? && code.value != 0
  }

  /** The external mapping from a gRPC status code to a span status code. */
  type StatusMapper = Option<int> -> StatusCode

  // ----- Dispatch on the handler type -----

  datatype HandlerFamily = UnaryFamily | StreamFamily | Unhandled

  const UNARY_TYPES: set<string> := {"unary", "clientStream", "client_stream"}
  const STREAM_TYPES: set<string> := {"serverStream", "server_stream", "bidi"}

  /** The `switch (type)` shared by the traced and the untraced handler. */
  function Classify(handlerType: string): (f: HandlerFamily)
    ensures f == UnaryFamily <==> handlerType in UNARY_TYPES
    ensures f == StreamFamily <==> handlerType in STREAM_TYPES
    ensures f == Unhandled <==> handlerType !in UNARY_TYPES + STREAM_TYPES
  {
    match handlerType
    case "unary" => UnaryFamily
    case "clientStream" => UnaryFamily
    case "client_stream" => UnaryFamily
    case "serverStream" => StreamFamily
    case "server_stream" => StreamFamily
    case "bidi" => StreamFamily
    case _ => Unhandled
  }

  datatype CallRef = CallRef(id: nat)

  /** The callback the original handler receives: the user's own, or the
      patched one that closes over the span and the payload bound. */
  datatype ServerCallback = UserCallback(id: nat) | PatchedCallback(user: nat, maxPayloadSize: int)

  /** How the original handler is called; its `this` is always a fresh empty
      object and is not modelled. */
  datatype Invocation = NotInvoked | Invoked(call: CallRef, callback: Option<ServerCallback>)

  /** What a handler wrapper sets up: whether finish/error listeners were
      attached to the call, and how the original handler was invoked. */
  datatype Wiring = Wiring(streamListeners: bool, invocation: Invocation)

  /** `handleServerFunction`: the unary family gets the patched callback, the
      streaming family gets span-ending listeners and only the call, any other
      type gets nothing. */
  function HandleServerFunction(handlerType: string, call: CallRef, callback: nat, maxPayloadSize: int): (w: Wiring)
    ensures w.invocation.Invoked? <==> handlerType in UNARY_TYPES + STREAM_TYPES
    ensures w.streamListeners <==> handlerType in STREAM_TYPES
    ensures handlerType in UNARY_TYPES ==>
      w.invocation == Invoked(call, Some(PatchedCallback(callback, maxPayloadSize)))
    ensures handlerType in STREAM_TYPES ==> w.invocation == Invoked(call, None)
  {
    match Classify(handlerType)
    case UnaryFamily => Wiring(false, Invoked(call, Some(PatchedCallback(callback, maxPayloadSize))))
    case StreamFamily => Wiring(true, Invoked(call, None))
    case Unhandled => Wiring(false, NotInvoked)
  }

  /** `handleUntracedServerFunction`: the same classification, nothing patched. */
  function HandleUntracedServerFunction(handlerType: string, call: CallRef, callback: nat): (i: Invocation)
    ensures i.Invoked? <==> handlerType in UNARY_TYPES + STREAM_TYPES
    ensures handlerType in UNARY_TYPES ==> i == Invoked(call, Some(UserCallback(callback)))
    ensures handlerType in STREAM_TYPES ==> i == Invoked(call, None)
  {
    match Classify(handlerType)
    case UnaryFamily => Invoked(call, Some(UserCallback(callback)))
    case StreamFamily => Invoked(call, None)
    case Unhandled => NotInvoked
  }

  // ----- The patched unary callback -----

  datatype CallbackEffect =
    | OnSpan(op: SpanOp)
    | Forward(callback: nat, err: Option<ServiceError>, value: Option<ResponseValue>)

  function SpanOpsOf(effects: seq<CallbackEffect>): (ops: seq<SpanOp>)
    decreases |effects|
  {
    if |effects| == 0 then []
    else (if effects[0].OnSpan? then [effects[0].op] else []) + SpanOpsOf(effects[1..])
  }

  function ForwardsOf(effects: seq<CallbackEffect>): (fs: seq<CallbackEffect>)
    ensures forall i :: 0 <= i < |fs| ==> fs[i].Forward?
    decreases |effects|
  {
    if |effects| == 0 then []
    else (if effects[0].Forward? then [effects[0]] else []) + ForwardsOf(effects[1..])
  }

  /** Every span operation as a callback effect, in order. */
  function Lift(ops: seq<SpanOp>): (r: seq<CallbackEffect>)
    ensures |r| == |ops|
    ensures forall i :: 0 <= i < |r| ==> r[i] == OnSpan(ops[i])
    decreases |ops|
  {
    if |ops| == 0 then [] else [OnSpan(ops[0])] + Lift(ops[1..])
  }

  /** The status and attribute writes for a completed unary call. */
  function UnaryStatusOps(err: Option<ServiceError>, toOtel: StatusMapper): seq<SpanOp> {
    match err
    case Some(e) =>
      (if CodeIsTruthy(e.code)
       then [SetStatus(Status(toOtel(e.code), Some(e.message))),
             SetAttribute(RPC_GRPC_STATUS_CODE, Decimal.IntToString(e.code.value))]
       else [])
      + [SetAttributes(map[GRPC_ERROR_NAME := e.name, GRPC_ERROR_MESSAGE := e.message])]
    case None =>
      [SetStatus(Status(Unset, None)), SetAttribute(RPC_GRPC_STATUS_CODE, OkCodeText())]
  }

  /** The patched callback of `clientStreamAndUnaryHandler`: status and
      attributes, then the response payload, then the span's end, and last the
      user's callback with the very arguments it was given. */
  function CompleteUnary(user: nat, maxPayloadSize: int, err: Option<ServiceError>, value: Option<ResponseValue>,
                         toOtel: StatusMapper): (r: seq<CallbackEffect>)
    ensures |r| >= 3
    ensures r[|r| - 1] == Forward(user, err, value)
    ensures r[|r| - 2] == OnSpan(End)
    ensures r[|r| - 3] == OnSpan(RecordPayload(PayloadRecord(RPC_RESPONSE_BODY, value, maxPayloadSize)))
    ensures forall i :: 0 <= i < |r| - 1 ==> r[i].OnSpan?
  {
    Lift(UnaryStatusOps(err, toOtel))
    + [OnSpan(RecordPayload(PayloadRecord(RPC_RESPONSE_BODY, value, maxPayloadSize))), OnSpan(End), Forward(user, err, value)]
  }

  /** What happens when the original handler calls the callback it was given. */
  function RunCallback(cb: ServerCallback, err: Option<ServiceError>, value: Option<ResponseValue>,
                       toOtel: StatusMapper): seq<CallbackEffect>
  {
    match cb
    case UserCallback(id) => [Forward(id, err, value)]
    case PatchedCallback(user, max) => CompleteUnary(user, max, err, value, toOtel)
  }

  lemma {:induction false} SpanOpsOfAppend(a: seq<CallbackEffect>, b: seq<CallbackEffect>)
    ensures SpanOpsOf(a + b) == SpanOpsOf(a) + SpanOpsOf(b)
    decreases |a|
  {
    if |a| == 0 {
      assert a + b == b;
    } else {
      assert (a + b)[0] == a[0];
      assert (a + b)[1..] == a[1..] + b;
      SpanOpsOfAppend(a[1..], b);
      var head := if a[0].OnSpan? then [a[0].op] else [];
      assert SpanOpsOf(a + b) == head + (SpanOpsOf(a[1..]) + SpanOpsOf(b));
    }
  }

  lemma {:induction false} ForwardsOfAppend(a: seq<CallbackEffect>, b: seq<CallbackEffect>)
    ensures ForwardsOf(a + b) == ForwardsOf(a) + ForwardsOf(b)
    decreases |a|
  {
    if |a| == 0 {
      assert a + b == b;
    } else {
      assert (a + b)[0] == a[0];
      assert (a + b)[1..] == a[1..] + b;
      ForwardsOfAppend(a[1..], b);
      var head := if a[0].Forward? then [a[0]] else [];
      assert ForwardsOf(a + b) == head + (ForwardsOf(a[1..]) + ForwardsOf(b));
    }
  }

  lemma {:induction false} SpanOpsOfLift(ops: seq<SpanOp>)
    ensures SpanOpsOf(Lift(ops)) == ops
    ensures ForwardsOf(Lift(ops)) == []
    decreases |ops|
  {
    if |ops| > 0 {
      var lifted := Lift(ops);
      assert lifted[0] == OnSpan(ops[0]);
      assert lifted[1..] == Lift(ops[1..]);
      SpanOpsOfLift(ops[1..]);
    }
  }

  /** The span trace of the patched callback, split into its three parts. */
  lemma CompleteUnaryTraces(user: nat, maxPayloadSize: int, err: Option<ServiceError>, value: Option<ResponseValue>,
                            toOtel: StatusMapper)
    ensures SpanOpsOf(CompleteUnary(user, maxPayloadSize, err, value, toOtel))
      == UnaryStatusOps(err, toOtel) + [RecordPayload(PayloadRecord(RPC_RESPONSE_BODY, value, maxPayloadSize)), End]
    ensures ForwardsOf(CompleteUnary(user, maxPayloadSize, err, value, toOtel)) == [Forward(user, err, value)]
  {
    var lifted := Lift(UnaryStatusOps(err, toOtel));
    var payload := OnSpan(RecordPayload(PayloadRecord(RPC_RESPONSE_BODY, value, maxPayloadSize)));
    var tail := [payload, OnSpan(End), Forward(user, err, value)];
    SpanOpsOfLift(UnaryStatusOps(err, toOtel));
    SpanOpsOfAppend(lifted, tail);
    SpanOpsOfAppend([payload], [OnSpan(End), Forward(user, err, value)]);
    SpanOpsOfAppend([OnSpan(End)], [Forward(user, err, value)]);
    ForwardsOfAppend(lifted, tail);
    ForwardsOfAppend([payload], [OnSpan(End), Forward(user, err, value)]);
    ForwardsOfAppend([OnSpan(End)], [Forward(user, err, value)]);
    assert tail == [payload] + ([OnSpan(End)] + [Forward(user, err, value)]);
  }

  /** The status writes for an error with a truthy code. */
  lemma UnaryStatusWithCode(span: Span, e: ServiceError, toOtel: StatusMapper)
    requires CodeIsTruthy(e.code)
    ensures ApplyAll(span, UnaryStatusOps(Some(e), toOtel))
      == span.(status := Status(toOtel(e.code), Some(e.message)),
               attributes := span.attributes[RPC_GRPC_STATUS_CODE := Decimal.IntToString(e.code.value)]
                                            [GRPC_ERROR_NAME := e.name][GRPC_ERROR_MESSAGE := e.message])
  {
    var m := map[GRPC_ERROR_NAME := e.name, GRPC_ERROR_MESSAGE := e.message];
    var setStatus := SetStatus(Status(toOtel(e.code), Some(e.message)));
    var setCode := SetAttribute(RPC_GRPC_STATUS_CODE, Decimal.IntToString(e.code.value));
    assert UnaryStatusOps(Some(e), toOtel) == [setStatus] + ([setCode] + [SetAttributes(m)]);
    ApplyAllCons(span, setStatus, [setCode] + [SetAttributes(m)]);
    ApplyAllCons(Apply(span, setStatus), setCode, [SetAttributes(m)]);
    ApplyAllCons(Apply(Apply(span, setStatus), setCode), SetAttributes(m), []);
    var withCode := span.attributes[RPC_GRPC_STATUS_CODE := Decimal.IntToString(e.code.value)];
    assert withCode + m == withCode[GRPC_ERROR_NAME := e.name][GRPC_ERROR_MESSAGE := e.message];
  }

  /** The status writes for an error whose code is absent or zero. */
  lemma {:induction false} UnaryStatusWithoutCode(span: Span, e: ServiceError, toOtel: StatusMapper)
    requires !CodeIsTruthy(e.code)
    ensures ApplyAll(span, UnaryStatusOps(Some(e), toOtel))
      == span.(attributes := span.attributes[GRPC_ERROR_NAME := e.name][GRPC_ERROR_MESSAGE := e.message])
  {
  }

  /** The status writes for a successful call. */
  lemma UnaryStatusSuccess(span: Span, toOtel: StatusMapper)
    ensures ApplyAll(span, UnaryStatusOps(None, toOtel))
      == span.(status := Status(Unset, None), attributes := span.attributes[RPC_GRPC_STATUS_CODE := OkCodeText()])
  {
    var setStatus := SetStatus(Status(Unset, None));
    var setCode := SetAttribute(RPC_GRPC_STATUS_CODE, OkCodeText());
    assert UnaryStatusOps(None, toOtel) == [setStatus] + [setCode];
    ApplyAllCons(span, setStatus, [setCode]);
    ApplyAllCons(Apply(span, setStatus), setCode, []);
  }

  /** After the status writes: one payload record and one end. */
  lemma UnaryTail(span: Span, statusOps: seq<SpanOp>, payload: PayloadRecord)
    ensures var mid := ApplyAll(span, statusOps);
      ApplyAll(span, statusOps + [RecordPayload(payload), End])
      == mid.(payloads := mid.payloads + [payload], endCount := mid.endCount + 1)
  {
    ApplyAllAppend(span, statusOps, [RecordPayload(payload), End]);
    var mid := ApplyAll(span, statusOps);
    ApplyAllCons(mid, RecordPayload(payload), [End]);
    ApplyAllCons(Apply(mid, RecordPayload(payload)), End, []);
    assert [RecordPayload(payload)] + [End] == [RecordPayload(payload), End];
  }

  /** The span a unary call leaves behind, by outcome. An error with a truthy
      code sets the mapped status and the code attribute; an error without one
      leaves the status alone; success sets UNSET and the OK code. Every
      outcome records the response payload once and ends the span once. */
  lemma UnaryCompletionSpan(span: Span, user: nat, maxPayloadSize: int, err: Option<ServiceError>,
                            value: Option<ResponseValue>, toOtel: StatusMapper)
    ensures var s := ApplyAll(span, SpanOpsOf(CompleteUnary(user, maxPayloadSize, err, value, toOtel)));
      && s.endCount == span.endCount + 1
      && s.payloads == span.payloads + [PayloadRecord(RPC_RESPONSE_BODY, value, maxPayloadSize)]
      && (err.Some? && CodeIsTruthy(err.value.code) ==>
            && s.status == Status(toOtel(err.value.code), Some(err.value.message))
            && s.attributes == span.attributes[RPC_GRPC_STATUS_CODE := Decimal.IntToString(err.value.code.value)]
                                             [GRPC_ERROR_NAME := err.value.name]
                                             [GRPC_ERROR_MESSAGE := err.value.message])
      && (err.Some? && !CodeIsTruthy(err.value.code) ==>
            && s.status == span.status
            && s.attributes == span.attributes[GRPC_ERROR_NAME := err.value.name]
                                             [GRPC_ERROR_MESSAGE := err.value.message])
      && (err.None? ==>
            && s.status == Status(Unset, None)
            && s.attributes == span.attributes[RPC_GRPC_STATUS_CODE := OkCodeText()])
  {
    CompleteUnaryTraces(user, maxPayloadSize, err, value, toOtel);
    UnaryTail(span, UnaryStatusOps(err, toOtel), PayloadRecord(RPC_RESPONSE_BODY, value, maxPayloadSize));
    match err
    case Some(e) =>
      if CodeIsTruthy(e.code) {
        UnaryStatusWithCode(span, e, toOtel);
      } else {
        UnaryStatusWithoutCode(span, e, toOtel);
      }
    case None =>
      UnaryStatusSuccess(span, toOtel);
  }

  /** Tracing is transparent to the service: for every handler type the
      traced and untraced wrappers invoke the original handler in the same
      cases with the same call, and the user's callback receives exactly the
      arguments the original handler produced. */
  lemma TracingIsTransparent(handlerType: string, call: CallRef, callback: nat, maxPayloadSize: int,
                             err: Option<ServiceError>, value: Option<ResponseValue>, toOtel: StatusMapper)
    ensures var traced := HandleServerFunction(handlerType, call, callback, maxPayloadSize).invocation;
            var plain := HandleUntracedServerFunction(handlerType, call, callback);
      && (traced.Invoked? <==> plain.Invoked?)
      && (traced.Invoked? ==>
            (traced.call == plain.call == call && (traced.callback.Some? <==> plain.callback.Some?)))
      && (traced.Invoked? && traced.callback.Some? ==>
            ForwardsOf(RunCallback(traced.callback.value, err, value, toOtel))
            == ForwardsOf(RunCallback(plain.callback.value, err, value, toOtel))
            == [Forward(callback, err, value)])
  {
    CompleteUnaryTraces(callback, maxPayloadSize, err, value, toOtel);
  }

  // ----- The finish/error event machine of streaming calls -----

  datatype StreamEvent = Finish | Failed(err: ServiceError)

  /** `callSpanEnded` is the `CALL_SPAN_ENDED` flag on the call object;
      `spanEnded` the wrapper's own local flag. */
  datatype StreamState = StreamState(callSpanEnded: bool, spanEnded: bool)

  /** The local `endSpan` closure. */
  function EndSpan(st: StreamState): (StreamState, seq<SpanOp>) {
    if !st.spanEnded then (st.(spanEnded := true), [End]) else (st, [])
  }

  function FinishOps(): seq<SpanOp> {
    [SetStatus(Status(Unset, None)), SetAttribute(RPC_GRPC_STATUS_CODE, OkCodeText())]
  }

  function ErrorOps(e: ServiceError, toOtel: StatusMapper): seq<SpanOp> {
    [SetStatus(Status(toOtel(e.code), Some(e.message))),
     SetAttributes(map[GRPC_ERROR_NAME := e.name, GRPC_ERROR_MESSAGE := e.message])]
  }

  /** One 'finish' or 'error' event: ignored once the call flag is set,
      otherwise it sets the flag, writes the status and ends the span. */
  function OnStreamEvent(st: StreamState, e: StreamEvent, toOtel: StatusMapper): (r: (StreamState, seq<SpanOp>))
    ensures st.callSpanEnded ==> r == (st, [])
    ensures !st.callSpanEnded ==> r.0.callSpanEnded && r.0.spanEnded
    ensures !st.callSpanEnded ==> CountEnds(r.1) == (if st.spanEnded then 0 else 1)
  {
    if st.callSpanEnded then (st, [])
    else
      var flagged := st.(callSpanEnded := true);
      var statusOps := match e
        case Finish => FinishOps()
        case Failed(err) => ErrorOps(err, toOtel);
      var (ended, endOps) := EndSpan(flagged);
      CountEndsAppend(statusOps, endOps);
      (ended, statusOps + endOps)
  }

  /** The events of one call, delivered in order. */
  function RunStream(st: StreamState, events: seq<StreamEvent>, toOtel: StatusMapper): (StreamState, seq<SpanOp>)
    decreases |events|
  {
    if |events| == 0 then (st, [])
    else
      var first := OnStreamEvent(st, events[0], toOtel);
      var rest := RunStream(first.0, events[1..], toOtel);
      (rest.0, first.1 + rest.1)
  }

  /** Once the call flag is set, no event changes anything. */
  lemma {:induction false} StreamInertOnceFlagged(st: StreamState, events: seq<StreamEvent>, toOtel: StatusMapper)
    requires st.callSpanEnded
    ensures RunStream(st, events, toOtel) == (st, [])
    decreases |events|
  {
    if |events| > 0 {
      StreamInertOnceFlagged(st, events[1..], toOtel);
      assert OnStreamEvent(st, events[0], toOtel) == (st, []);
      var none: seq<SpanOp> := [];
      assert none + none == none;
    }
  }

  /** Only the first event acts: the whole trace is the first event's trace. */
  lemma StreamOnlyFirstEventActs(st: StreamState, events: seq<StreamEvent>, toOtel: StatusMapper)
    requires |events| > 0
    ensures RunStream(st, events, toOtel) == OnStreamEvent(st, events[0], toOtel)
  {
    var first := OnStreamEvent(st, events[0], toOtel);
    // An event always leaves the call flagged, so the rest are ignored.
    StreamInertOnceFlagged(first.0, events[1..], toOtel);
    assert first.1 + [] == first.1;
  }

  /** Whatever the events and whatever state the call starts in, the span is
      ended at most once; a call that starts unflagged and sees at least one
      event ends it exactly once. */
  lemma {:induction false} StreamEndsAtMostOnce(st: StreamState, events: seq<StreamEvent>, toOtel: StatusMapper)
    ensures CountEnds(RunStream(st, events, toOtel).1) <= 1
    ensures !st.callSpanEnded && !st.spanEnded ==>
      CountEnds(RunStream(st, events, toOtel).1) == (if |events| > 0 then 1 else 0)
  {
    if |events| > 0 {
      StreamOnlyFirstEventActs(st, events, toOtel);
    }
  }

  /** The span a streaming call leaves behind, from the span it started with. */
  function StreamOutcome(span: Span, callFlag: bool, events: seq<StreamEvent>, toOtel: StatusMapper): Span {
    ApplyAll(span, RunStream(StreamState(callFlag, false), events, toOtel).1)
  }

  /** 'finish' first: status UNSET, the OK code attribute, no error
      attributes, one end; later events change nothing. */
  lemma StreamFinishFirst(span: Span, events: seq<StreamEvent>, toOtel: StatusMapper)
    requires |events| > 0 && events[0] == Finish
    ensures var s := StreamOutcome(span, false, events, toOtel);
      && s.status == Status(Unset, None)
      && s.attributes == span.attributes[RPC_GRPC_STATUS_CODE := OkCodeText()]
      && s.payloads == span.payloads
      && s.endCount == span.endCount + 1
  {
    StreamOnlyFirstEventActs(StreamState(false, false), events, toOtel);
    var setStatus := SetStatus(Status(Unset, None));
    var setCode := SetAttribute(RPC_GRPC_STATUS_CODE, OkCodeText());
    assert RunStream(StreamState(false, false), events, toOtel).1 == [setStatus] + ([setCode] + [End]);
    ApplyAllCons(span, setStatus, [setCode] + [End]);
    ApplyAllCons(Apply(span, setStatus), setCode, [End]);
    ApplyAllCons(Apply(Apply(span, setStatus), setCode), End, []);
  }

  /** 'error' first: the mapped status with the error message, the error's
      name and message attributes, one end; later events change nothing. */
  lemma StreamErrorFirst(span: Span, events: seq<StreamEvent>, toOtel: StatusMapper)
    requires |events| > 0 && events[0].Failed?
    ensures var e := events[0].err;
            var s := StreamOutcome(span, false, events, toOtel);
      && s.status == Status(toOtel(e.code), Some(e.message))
      && s.attributes == span.attributes[GRPC_ERROR_NAME := e.name][GRPC_ERROR_MESSAGE := e.message]
      && s.payloads == span.payloads
      && s.endCount == span.endCount + 1
  {
    StreamOnlyFirstEventActs(StreamState(false, false), events, toOtel);
    var e := events[0].err;
    var m := map[GRPC_ERROR_NAME := e.name, GRPC_ERROR_MESSAGE := e.message];
    var setStatus := SetStatus(Status(toOtel(e.code), Some(e.message)));
    assert RunStream(StreamState(false, false), events, toOtel).1 == [setStatus] + ([SetAttributes(m)] + [End]);
    ApplyAllCons(span, setStatus, [SetAttributes(m)] + [End]);
    ApplyAllCons(Apply(span, setStatus), SetAttributes(m), [End]);
    ApplyAllCons(Apply(Apply(span, setStatus), SetAttributes(m)), End, []);
    assert span.attributes + m == span.attributes[GRPC_ERROR_NAME := e.name][GRPC_ERROR_MESSAGE := e.message];
  }

  /** A call already flagged by an earlier handler leaves the span untouched. */
  lemma StreamFlaggedCallUntouched(span: Span, events: seq<StreamEvent>, toOtel: StatusMapper)
    ensures StreamOutcome(span, true, events, toOtel) == span
  {
    StreamInertOnceFlagged(StreamState(true, false), events, toOtel);
  }
}
