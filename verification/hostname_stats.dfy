/** The backend-usage table: one row per hostname sample, ranked by request count, with each
    row's share of all requests. */
module HostnameStats {
  import opened Seqs
  import opened Numbers
  import opened MetricTypes
  import Dashboard

  datatype HostRow = HostRow(hostname: string, count: real)

  /** One displayed row (`HostStats`). */
  datatype HostShare = HostShare(hostname: string, count: real, percentage: real)

  /** `{ hostname: m.labels?.hostname || "unknown", count: m.value }` */
  function HostRowOf(s: Sample): HostRow
  {
    HostRow(LabelOr(s, "hostname", "unknown"), s.value)
  }

  function CountOf(r: HostRow): real
  {
    r.count
  }

  /** `hostStats`: the hostname samples as rows, highest count first, ties in input order.
      Samples for the same hostname are not merged. */
  function HostRows(metrics: seq<Sample>): (r: seq<HostRow>)
    ensures SortedDesc(r, CountOf)
    ensures multiset(r) == multiset(MapSeq(WithName(metrics, Dashboard.HostnameMetric), HostRowOf))
    ensures |r| == |WithName(metrics, Dashboard.HostnameMetric)|
  {
    SortDesc(MapSeq(WithName(metrics, Dashboard.HostnameMetric), HostRowOf), CountOf)
  }

  /** Ties in input order: the rows of any one count are those samples' rows, in sample order. */
  lemma HostRowsStable(metrics: seq<Sample>, c: real)
    ensures Filter(HostRows(metrics), KeyIs(CountOf, c))
            == Filter(MapSeq(WithName(metrics, Dashboard.HostnameMetric), HostRowOf), KeyIs(CountOf, c))
  {
    SortDescStable(MapSeq(WithName(metrics, Dashboard.HostnameMetric), HostRowOf), CountOf, c);
  }

  /** `totalRequests` */
  function TotalRequests(rows: seq<HostRow>): real
  {
    SumOf(rows, CountOf)
  }

  function ShareOf(total: real): HostRow -> HostShare
  {
    (r: HostRow) => HostShare(r.hostname, r.count, Percent(r.count, total))
  }

  /** `statsWithPercentage`: each row beside its share of the total, in per cent. */
  function HostStats(metrics: seq<Sample>): (r: seq<HostShare>)
    ensures |r| == |HostRows(metrics)|
    ensures forall i :: 0 <= i < |r| ==> var row := HostRows(metrics)[i];
              && r[i].hostname == row.hostname && r[i].count == row.count
              && r[i].percentage == Percent(row.count, TotalRequests(HostRows(metrics)))
  {
    var rows := HostRows(metrics);
    MapSeq(rows, ShareOf(TotalRequests(rows)))
  }

  /** The total is the sum of the values of all hostname samples: ranking loses nothing. */
  lemma TotalIsSum(metrics: seq<Sample>)
    ensures TotalRequests(HostRows(metrics)) == SumOf(WithName(metrics, Dashboard.HostnameMetric), Value)
  {
    var named := WithName(metrics, Dashboard.HostnameMetric);
    var rows := MapSeq(named, HostRowOf);
    SortDescSum(rows, CountOf, CountOf);
    forall i | 0 <= i < |named| ensures Value(named[i]) == CountOf(HostRowOf(named[i])) {
    }
    SumOfMap(named, HostRowOf, CountOf, Value);
  }

  function PercentageOf(s: HostShare): real
  {
    s.percentage
  }

  function PerCent(total: real): HostRow -> real
  {
    (r: HostRow) => if total == 0.0 then 0.0 else r.count * (100.0 / total)
  }

  /** When there are requests at all, the shares add up to 100 per cent. */
  lemma SharesAddUp(metrics: seq<Sample>)
    requires TotalRequests(HostRows(metrics)) != 0.0
    ensures SumOf(HostStats(metrics), PercentageOf) == 100.0
  {
    SharesOfRows(HostRows(metrics));
  }

  lemma SharesOfRows(rows: seq<HostRow>)
    requires TotalRequests(rows) != 0.0
    ensures SumOf(MapSeq(rows, ShareOf(TotalRequests(rows))), PercentageOf) == 100.0
  {
    var t := TotalRequests(rows);
    forall i | 0 <= i < |rows| ensures PerCent(t)(rows[i]) == PercentageOf(ShareOf(t)(rows[i])) {
      ShareTerm(rows[i].count, t);
    }
    SumOfMap(rows, ShareOf(t), PercentageOf, PerCent(t));
    forall i | 0 <= i < |rows| ensures PerCent(t)(rows[i]) == CountOf(rows[i]) * (100.0 / t) {
    }
    SumOfScale(rows, CountOf, PerCent(t), 100.0 / t);
    assert t * (100.0 / t) == 100.0;
  }

  lemma ShareTerm(c: real, t: real)
    requires t != 0.0
    ensures Percent(c, t) == c * (100.0 / t)
  {
  }

  /** There are at least as many rows as distinct hostname labels the overview counts. */
  lemma RowsCoverHosts(metrics: seq<Sample>)
    ensures |HostStats(metrics)| >= Dashboard.UniqueHosts(metrics)
  {
    Dashboard.UniqueHostsDistinct(metrics);
  }
}
