/** The payload the exporter posts for one metric: an OpenTelemetry
    metrics export request in its OTLP/HTTP JSON shape, holding one
    resource, one scope, one metric and one data point. The HTTP post
    itself is not modelled. */
module Exporter {
  import opened Telemetry

  const ServiceNameKey: string := "service.name"
  const CumulativeTemporality: string := "AGGREGATION_TEMPORALITY_CUMULATIVE"
  const NanosPerMilli: int := 1_000_000

  datatype AnyValue = StringValue(stringValue: string)
  datatype KeyValue = KeyValue(key: string, value: AnyValue)
  datatype Resource = Resource(attributes: seq<KeyValue>)

  datatype NumberDataPoint = NumberDataPoint(asDouble: Double, timeUnixNano: int)

  /** The body under the metric's `sum` or `gauge` key; the temporality
      and monotonicity entries are absent from a gauge. */
  datatype MetricData = MetricData(dataPoints: seq<NumberDataPoint>,
                                   aggregationTemporality: Option<string>,
                                   isMonotonic: Option<bool>)

  /** A metric with its data under the property named `dataKey`. */
  datatype OtlpMetric = OtlpMetric(name: string, unit: string, dataKey: string, data: MetricData)

  datatype ScopeMetrics = ScopeMetrics(metrics: seq<OtlpMetric>)
  datatype ResourceMetrics = ResourceMetrics(resource: Resource, scopeMetrics: seq<ScopeMetrics>)
  datatype Envelope = Envelope(resourceMetrics: seq<ResourceMetrics>)

  /** Exactly one resource, scope, metric and data point. */
  predicate SingleMetric(e: Envelope)
  {
    |e.resourceMetrics| == 1 &&
    |e.resourceMetrics[0].scopeMetrics| == 1 &&
    |e.resourceMetrics[0].scopeMetrics[0].metrics| == 1 &&
    |e.resourceMetrics[0].scopeMetrics[0].metrics[0].data.dataPoints| == 1
  }

  /** The payload for `m`, sent on behalf of `source` at `nowMs`
      milliseconds since the epoch. */
  function BuildEnvelope(m: Metric, source: string, nowMs: int): (e: Envelope)
    ensures SingleMetric(e)
    ensures e.resourceMetrics[0].resource.attributes == [KeyValue(ServiceNameKey, StringValue(source))]
    ensures var om := e.resourceMetrics[0].scopeMetrics[0].metrics[0];
      om.name == m.name && om.unit == m.unit && om.dataKey == KindKey(m.kind) &&
      om.data.dataPoints[0] == NumberDataPoint(m.value, nowMs * NanosPerMilli) &&
      (om.data.aggregationTemporality == Some(CumulativeTemporality) <==> m.kind == Sum) &&
      (om.data.isMonotonic == Some(true) <==> m.kind == Sum) &&
      (m.kind == Gauge ==> om.data.aggregationTemporality == None && om.data.isMonotonic == None)
  {
    var point := NumberDataPoint(m.value, nowMs * NanosPerMilli);
    var data := MetricData([point], None, None);
    var data := if KindKey(m.kind) == "sum"
      then data.(aggregationTemporality := Some(CumulativeTemporality), isMonotonic := Some(true))
      else data;
    var metric := OtlpMetric(m.name, m.unit, KindKey(m.kind), data);
    var resource := Resource([KeyValue(ServiceNameKey, StringValue(source))]);
    Envelope([ResourceMetrics(resource, [ScopeMetrics([metric])])])
  }

  /** What a collector reads back from a payload: the metric, the service
      name and the timestamp in nanoseconds, or None when the payload does
      not have the single-metric shape or its kind markers disagree. */
  function ReadEnvelope(e: Envelope): (r: Option<(Metric, string, int)>)
    ensures r.Some? ==> SingleMetric(e)
  {
    if !SingleMetric(e) then None
    else
      var rm := e.resourceMetrics[0];
      var om := rm.scopeMetrics[0].metrics[0];
      var point := om.data.dataPoints[0];
      if |rm.resource.attributes| != 1 || rm.resource.attributes[0].key != ServiceNameKey then None
      else if om.dataKey == "sum"
           && om.data.aggregationTemporality == Some(CumulativeTemporality)
           && om.data.isMonotonic == Some(true) then
        Some((Metric(om.name, point.asDouble, Sum, om.unit),
              rm.resource.attributes[0].value.stringValue, point.timeUnixNano))
      else if om.dataKey == "gauge"
           && om.data.aggregationTemporality == None && om.data.isMonotonic == None then
        Some((Metric(om.name, point.asDouble, Gauge, om.unit),
              rm.resource.attributes[0].value.stringValue, point.timeUnixNano))
      else None
  }

  /** Reading a built payload gives back the metric, the source and the
      millisecond time scaled to nanoseconds. */
  lemma ReadBuiltEnvelope(m: Metric, source: string, nowMs: int)
    ensures ReadEnvelope(BuildEnvelope(m, source, nowMs)) == Some((m, source, nowMs * NanosPerMilli))
  {
  }

  /** Payloads built at different times or for different metrics differ. */
  lemma BuildEnvelopeInjective(m: Metric, m': Metric, source: string, nowMs: int, nowMs': int)
    requires BuildEnvelope(m, source, nowMs) == BuildEnvelope(m', source, nowMs')
    ensures m == m' && nowMs == nowMs'
  {
    ReadBuiltEnvelope(m, source, nowMs);
    ReadBuiltEnvelope(m', source, nowMs');
  }
}
