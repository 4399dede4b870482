/** Types shared by the telemetry components: the metric handed to the
    exporter and the number it carries. */
module Telemetry {

  datatype Option<+T> = None | Some(value: T)

  /** A JavaScript number as the exporter sees it after `parseFloat`:
      either a finite value or one of NaN, +Infinity, -Infinity
      (which arise only from a division by zero in the CPU sampler). */
  datatype Double = Finite(value: real) | NotFinite

  /** The `type` argument of the exporter: a cumulative counter ("sum")
      or an instantaneous reading ("gauge"). */
  datatype Kind = Sum | Gauge

  /** The property name the exporter uses for the kind in the payload. */
  function KindKey(k: Kind): (key: string)
    ensures key == "sum" <==> k == Sum
    ensures key == "gauge" <==> k == Gauge
  {
    match k
    case Sum => "sum"
    case Gauge => "gauge"
  }

  /** One call of the exporter: metric name, value, kind and unit. */
  datatype Metric = Metric(name: string, value: Double, kind: Kind, unit: string)

  /** The value a count is exported with. */
  function CountValue(n: int): Double
  {
    Finite(n as real)
  }
}
