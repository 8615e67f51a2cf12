/** The parsed sample and the classified buckets (`MetricValue` and `ParsedMetrics`), with the
    label reads every reducer uses. */
module MetricTypes {
  import opened Wrappers
  import Assoc
  import Seqs

  /** A label block: keys in the order first assigned, each key at most once. */
  type Labels = seq<(string, string)>

  /** One sample (`MetricValue`): `labels` is `None` when the line had no label block. */
  datatype Sample = Sample(name: string, metricType: string, help: string, value: real, labels: Option<Labels>)

  /** The four buckets of parsed samples. */
  datatype ParsedMetrics = ParsedMetrics(
    processMetrics: seq<Sample>,
    nodeMetrics: seq<Sample>,
    httpMetrics: seq<Sample>,
    customMetrics: seq<Sample>)

  /** `m.labels?.[key]` */
  function Label(s: Sample, key: string): Option<string>
  {
    match s.labels
    case None => None
    case Some(ls) => Assoc.Get(ls, key)
  }

  /** `m.labels?.[key] || fallback`: an absent or empty label reads as `fallback`. */
  function LabelOr(s: Sample, key: string, fallback: string): string
  {
    match Label(s, key)
    case Some(v) => if v != "" then v else fallback
    case None => fallback
  }

  function Value(s: Sample): real
  {
    s.value
  }

  function NameIs(name: string): Sample -> bool
  {
    (s: Sample) => s.name == name
  }

  /** `metrics.filter((m) => m.name === name)` */
  function WithName(ms: seq<Sample>, name: string): seq<Sample>
  {
    Seqs.Filter(ms, NameIs(name))
  }
}
