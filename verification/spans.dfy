/** The tracing span as the gRPC server handlers see it: a status, a string
    attribute map, the payloads handed to the payload handler, and how many
    times `end()` was called. Handlers do not change a span directly; they
    emit a trace of span operations, and the span they leave behind is that
    trace folded over the span they were given. */
module Spans {
  import opened Wrappers
  import Decimal

  /** `SpanStatusCode` of the tracing API. */
  datatype StatusCode = Unset | Ok | Error

  /** The numeric value of each `SpanStatusCode` member. */
  function StatusCodeValue(c: StatusCode): nat {
    match c
    case Unset => 0
    case Ok => 1
    case Error => 2
  }

  datatype Status = Status(code: StatusCode, message: Option<string>)

  /** The response object handed to the payload handler; its content is not
      interpreted here. */
  datatype ResponseValue = ResponseValue(id: nat)

  /** One call of the (external) payload handler's `setPayload`. */
  datatype PayloadRecord = PayloadRecord(key: string, value: Option<ResponseValue>, maxPayloadSize: int)

  datatype SpanOp =
    | SetStatus(status: Status)
    | SetAttribute(key: string, value: string)
    | SetAttributes(attributes: map<string, string>)
    | RecordPayload(payload: PayloadRecord)
    | End

  datatype Span = Span(status: Status, attributes: map<string, string>, payloads: seq<PayloadRecord>, endCount: nat)

  // Attribute keys written by the gRPC server handlers.
  const RPC_GRPC_STATUS_CODE := "rpc.grpc.status_code"
  const GRPC_ERROR_NAME := "grpc.error_name"
  const GRPC_ERROR_MESSAGE := "grpc.error_message"
  const RPC_RESPONSE_BODY := "rpc.response.body"

  /** `SpanStatusCode.OK.toString()`. */
  function OkCodeText(): (t: string)
    ensures t == "1"
    ensures Decimal.ParseInt(t) == Some(1)
  {
    Decimal.ParseIntToString(StatusCodeValue(Ok));
    Decimal.IntToString(StatusCodeValue(Ok))
  }

  function Apply(s: Span, op: SpanOp): Span {
    match op
    case SetStatus(st) => s.(status := st)
    case SetAttribute(k, v) => s.(attributes := s.attributes[k := v])
    case SetAttributes(m) => s.(attributes := s.attributes + m)
    case RecordPayload(p) => s.(payloads := s.payloads + [p])
    case End => s.(endCount := s.endCount + 1)
  }

  function ApplyAll(s: Span, ops: seq<SpanOp>): Span
    decreases |ops|
  {
    if |ops| == 0 then s else ApplyAll(Apply(s, ops[0]), ops[1..])
  }

  function CountEnds(ops: seq<SpanOp>): nat
    decreases |ops|
  {
    if |ops| == 0 then 0 else (if ops[0].End? then 1 else 0) + CountEnds(ops[1..])
  }

  /** Applying two traces one after the other is applying their concatenation. */
  lemma {:induction false} ApplyAllAppend(s: Span, a: seq<SpanOp>, b: seq<SpanOp>)
    ensures ApplyAll(s, a + b) == ApplyAll(ApplyAll(s, a), b)
    decreases |a|
  {
    if |a| > 0 {
      assert (a + b)[0] == a[0];
      assert (a + b)[1..] == a[1..] + b;
      ApplyAllAppend(Apply(s, a[0]), a[1..], b);
    } else {
      assert a + b == b;
    }
  }

  /** Unfolding one operation off the front of a trace. */
  lemma ApplyAllCons(s: Span, op: SpanOp, rest: seq<SpanOp>)
    ensures ApplyAll(s, [op] + rest) == ApplyAll(Apply(s, op), rest)
  {
    assert ([op] + rest)[0] == op;
    assert ([op] + rest)[1..] == rest;
  }

  lemma {:induction false} CountEndsAppend(a: seq<SpanOp>, b: seq<SpanOp>)
    ensures CountEnds(a + b) == CountEnds(a) + CountEnds(b)
    decreases |a|
  {
    if |a| > 0 {
      assert (a + b)[0] == a[0];
      assert (a + b)[1..] == a[1..] + b;
      CountEndsAppend(a[1..], b);
    } else {
      assert a + b == b;
    }
  }

  /** The span's end count grows by exactly the number of `End` operations in
      the trace, and only `End` changes it. */
  lemma {:induction false} ApplyAllEndCount(s: Span, ops: seq<SpanOp>)
    ensures ApplyAll(s, ops).endCount == s.endCount + CountEnds(ops)
    decreases |ops|
  {
    if |ops| > 0 {
      ApplyAllEndCount(Apply(s, ops[0]), ops[1..]);
    }
  }
}
