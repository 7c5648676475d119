/** Building the list of instrumentations and handing each one, by name, to
    the configurator that adds payload capture to it. The auto-instrumentation
    list and the four configurators are external: the list is an input and
    each configurator call is recorded, not performed. */
module Instrumentations {
  import opened Wrappers
  import opened Config

  /** An instrumentation, seen through its `instrumentationName`. */
  datatype Instrumentation = Instrumentation(name: string)

  const HTTP_NAME := "@opentelemetry/instrumentation-http"
  const AWS_SDK_NAME := "@opentelemetry/instrumentation-aws-sdk"
  const REDIS_NAME := "@opentelemetry/instrumentation-redis"
  const AMQPLIB_NAME := "opentelemetry-instrumentation-amqplib"

  /** The two instrumentations appended to the automatic list. */
  const AWS_INSTRUMENTATION := Instrumentation(AWS_SDK_NAME)
  const AMQPLIB_INSTRUMENTATION := Instrumentation(AMQPLIB_NAME)

  datatype Configurator = HttpConfigurator | AwsConfigurator | RedisConfigurator | AmqplibConfigurator

  /** The name each configurator is meant for. */
  function ConfiguratorName(c: Configurator): string {
    match c
    case HttpConfigurator => HTTP_NAME
    case AwsConfigurator => AWS_SDK_NAME
    case RedisConfigurator => REDIS_NAME
    case AmqplibConfigurator => AMQPLIB_NAME
  }

  /** The `switch` on the instrumentation name: a known name goes to the
      configurator meant for it, any other name to none. */
  function Route(name: string): (r: Option<Configurator>)
    ensures r.Some? ==> ConfiguratorName(r.value) == name
    ensures r.None? <==> forall c :: ConfiguratorName(c) != name
  {
    if name == HTTP_NAME then Some(HttpConfigurator)
    else if name == AWS_SDK_NAME then Some(AwsConfigurator)
    else if name == REDIS_NAME then Some(RedisConfigurator)
    else if name == AMQPLIB_NAME then Some(AmqplibConfigurator)
    else None
  }

  /** Different configurators are meant for different names, so routing by
      name is the exact inverse of `ConfiguratorName`. */
  lemma RouteInvertsConfiguratorName(c: Configurator, name: string)
    ensures Route(name) == Some(c) <==> name == ConfiguratorName(c)
  {
  }

  /** One call `configureXInstrumentation(instrumentation, options)`, naming
      the instrumentation by its position in the returned list. */
  datatype ConfiguratorCall = ConfiguratorCall(configurator: Configurator, index: nat, options: Options)

  /** The calls made for the first `upTo` instrumentations: each names an
      instrumentation already visited and the configurator of its name, with
      the caller's options; they follow list order without repeats; and every
      visited instrumentation of a known name has a call. */
  ghost predicate WellRouted(instrumentations: seq<Instrumentation>, calls: seq<ConfiguratorCall>,
                             options: Options, upTo: nat)
  {
    && upTo <= |instrumentations|
    && (forall k :: 0 <= k < |calls| ==>
          && calls[k].index < upTo
          && Route(instrumentations[calls[k].index].name) == Some(calls[k].configurator)
          && calls[k].options == options)
    && (forall j, k :: 0 <= j < k < |calls| ==> calls[j].index < calls[k].index)
    && (forall p :: 0 <= p < upTo && Route(instrumentations[p].name).Some? ==>
          exists k :: 0 <= k < |calls| && calls[k].index == p)
  }

  /** Visiting an instrumentation whose name has no configurator adds no call. */
  lemma SkipOne(instrumentations: seq<Instrumentation>, calls: seq<ConfiguratorCall>, options: Options, i: nat)
    requires i < |instrumentations|
    requires Route(instrumentations[i].name).None?
    requires WellRouted(instrumentations, calls, options, i)
    ensures WellRouted(instrumentations, calls, options, i + 1)
  {
  }

  /** Visiting an instrumentation whose name has a configurator adds one call
      for it, after all earlier ones. */
  lemma ConfigureOne(instrumentations: seq<Instrumentation>, calls: seq<ConfiguratorCall>, options: Options,
                     i: nat, c: Configurator)
    requires i < |instrumentations|
    requires Route(instrumentations[i].name) == Some(c)
    requires WellRouted(instrumentations, calls, options, i)
    ensures WellRouted(instrumentations, calls + [ConfiguratorCall(c, i, options)], options, i + 1)
  {
    var next := calls + [ConfiguratorCall(c, i, options)];
    assert forall k :: 0 <= k < |calls| ==> next[k] == calls[k];
    assert next[|calls|].index == i;
    forall p | 0 <= p < i + 1 && Route(instrumentations[p].name).Some?
      ensures exists k :: 0 <= k < |next| && next[k].index == p
    {
      if p < i {
        var k :| 0 <= k < |calls| && calls[k].index == p;
        assert next[k].index == p;
      } else {
        assert next[|calls|].index == p;
      }
    }
  }

  /** `getInstrumentations`: the automatic list followed by the AWS and then
      the AMQP instrumentation, with every instrumentation of a known name
      passed once, in list order, to its configurator and all others left
      alone. */
  method GetInstrumentations(auto: seq<Instrumentation>, options: Options)
    returns (instrumentations: seq<Instrumentation>, calls: seq<ConfiguratorCall>)
    ensures instrumentations == auto + [AWS_INSTRUMENTATION, AMQPLIB_INSTRUMENTATION]
    ensures |instrumentations| == |auto| + 2
    ensures forall k :: 0 <= k < |calls| ==>
      && calls[k].index < |instrumentations|
      && Route(instrumentations[calls[k].index].name) == Some(calls[k].configurator)
      && calls[k].options == options
    ensures forall j, k :: 0 <= j < k < |calls| ==> calls[j].index < calls[k].index
    ensures forall i :: 0 <= i < |instrumentations| && Route(instrumentations[i].name).Some? ==>
      exists k :: 0 <= k < |calls| && calls[k].index == i
  {
    instrumentations := auto + [AWS_INSTRUMENTATION];
    instrumentations := instrumentations + [AMQPLIB_INSTRUMENTATION];
    calls := [];
    var i := 0;
    while i < |instrumentations|
      invariant i <= |instrumentations|
      invariant WellRouted(instrumentations, calls, options, i)
    {
      var target := Route(instrumentations[i].name);
      if target.Some? {
        ConfigureOne(instrumentations, calls, options, i, target.value);
        calls := calls + [ConfiguratorCall(target.value, i, options)];
      } else {
        SkipOne(instrumentations, calls, options, i);
      }
      i := i + 1;
    }
  }
}
