/** The reductions the dashboard page makes of the parsed buckets before it draws anything:
    the per-provider status summary and its failure-rate rankings, the tool-usage and
    request-count series, the per-status totals, the route latency table and the overview
    figures. */
module Dashboard {
  import opened Wrappers
  import opened Strings
  import opened Seqs
  import Assoc
  import opened Numbers
  import opened MetricTypes
  import opened StatusCounts

  const StatusMetric := "mw_provider_status_count"
  const ToolMetric := "mw_provider_tool_count"
  const DurationPrefix := "http_request_duration_seconds"
  const DurationSum := "http_request_duration_seconds_sum"
  const DurationCount := "http_request_duration_seconds_count"
  const WatchMetric := "mw_media_watch_count"
  const HostnameMetric := "mw_provider_hostname_count"
  const UserMetric := "mw_user_count"
  const LagMetric := "nodejs_eventloop_lag_seconds"

  // ---------------------------------------------------------------- provider summary

  /** `curr.labels?.provider_id || "unknown"` */
  function ProviderOf(s: Sample): string
  {
    LabelOr(s, "provider_id", "unknown")
  }

  /** Status samples are filed under their provider; every other sample is passed over. */
  function SummaryKey(s: Sample): Option<string>
  {
    if s.name == StatusMetric then Some(ProviderOf(s)) else None
  }

  /** One sample's effect on its provider's counters, which start at zero. */
  function SummaryStep(o: Option<Counts>, s: Sample): Counts
  {
    Assign(o.GetOr(Zero), StatusOf(s), s.value)
  }

  /** `providerStats`: the counters of each provider, in order of first appearance. */
  function ProviderSummary(custom: seq<Sample>): seq<(string, Counts)>
  {
    Assoc.Group(custom, SummaryKey, SummaryStep)
  }

  /** The status samples of one provider, in order. */
  function ProviderSamples(custom: seq<Sample>, provider: string): seq<Sample>
  {
    Filter(custom, Assoc.HasKey(SummaryKey, provider))
  }

  /** A provider has counters exactly when it has a status sample, and each provider has one
      entry. */
  lemma SummaryKeys(custom: seq<Sample>, provider: string)
    ensures Assoc.DistinctKeys(ProviderSummary(custom))
    ensures provider in Assoc.Keys(ProviderSummary(custom))
            <==> exists i :: 0 <= i < |custom| && custom[i].name == StatusMetric && ProviderOf(custom[i]) == provider
  {
    Assoc.GroupDistinct(custom, SummaryKey, SummaryStep);
    Assoc.GroupKeys(custom, SummaryKey, SummaryStep, provider);
    assert forall i :: 0 <= i < |custom| ==>
      (SummaryKey(custom[i]) == Some(provider) <==> custom[i].name == StatusMetric && ProviderOf(custom[i]) == provider);
  }

  /** Each of a provider's counters holds the value of its last sample with that status, or 0:
      assignment, not addition. */
  lemma SummaryLastWins(custom: seq<Sample>, provider: string)
    ensures var c := Assoc.Get(ProviderSummary(custom), provider);
            c.Some? ==> var ms := ProviderSamples(custom, provider);
                        && c.value.success == LastStatus(ms, "success")
                        && c.value.failed == LastStatus(ms, "failed")
                        && c.value.notfound == LastStatus(ms, "notfound")
  {
    SummaryCounter(custom, provider, "success");
    SummaryCounter(custom, provider, "failed");
    SummaryCounter(custom, provider, "notfound");
    var c := Assoc.Get(ProviderSummary(custom), provider);
    if c.Some? {
      assert Counter("success")(c.value) == c.value.success;
      assert Counter("failed")(c.value) == c.value.failed;
      assert Counter("notfound")(c.value) == c.value.notfound;
    }
  }

  function AsCounts(c: Counts): Counts
  {
    c
  }

  // ---------------------------------------------------------------- failure-rate rankings

  datatype FailureRow = FailureRow(provider: string, failureRate: real, counts: Counts)

  /** `failed / (success + failed + notfound) * 100` beside the provider and its counters. */
  function FailureRowOf(e: (string, Counts)): (r: FailureRow)
    ensures r.provider == e.0 && r.counts == e.1
    ensures e.1.success + e.1.failed + e.1.notfound != 0.0
            ==> r.failureRate * (e.1.success + e.1.failed + e.1.notfound) == e.1.failed * 100.0
  {
    FailureRow(e.0, Percent(e.1.failed, e.1.success + e.1.failed + e.1.notfound), e.1)
  }

  function RateOf(r: FailureRow): real
  {
    r.failureRate
  }

  /** `providerFailureRates10` and `providerFailureRates20`: the rows ranked by failure rate,
      highest first, ties in summary order, cut to `n`. */
  function FailureRanking(summary: seq<(string, Counts)>, n: nat): (r: seq<FailureRow>)
    ensures |r| == Min(n, |summary|)
    ensures SortedDesc(r, RateOf)
    ensures multiset(r) <= multiset(MapSeq(summary, FailureRowOf))
  {
    var sorted := SortDesc(MapSeq(summary, FailureRowOf), RateOf);
    TakeSortedDesc(sorted, n, RateOf);
    Take(sorted, n)
  }

  /** The top ten are the first ten of the top twenty. */
  lemma RankingPrefix(summary: seq<(string, Counts)>)
    ensures FailureRanking(summary, 10) == FailureRanking(summary, 20)[..Min(10, |summary|)]
  {
  }

  /** A provider left out of a ranking fails no more often than any provider in it. */
  lemma RankingKeepsHighest(summary: seq<(string, Counts)>, n: nat, e: (string, Counts))
    requires e in summary
    requires FailureRowOf(e) !in FailureRanking(summary, n)
    ensures forall i :: 0 <= i < |FailureRanking(summary, n)|
                        ==> FailureRanking(summary, n)[i].failureRate >= FailureRowOf(e).failureRate
  {
    var rows := MapSeq(summary, FailureRowOf);
    var sorted := SortDesc(rows, RateOf);
    var r := FailureRanking(summary, n);
    var k :| 0 <= k < |summary| && summary[k] == e;
    assert rows[k] == FailureRowOf(e);
    assert FailureRowOf(e) in multiset(sorted);
    var j :| 0 <= j < |sorted| && sorted[j] == FailureRowOf(e);
    assert r == sorted[..|r|];
    assert j >= |r|;
  }

  /** Providers that tie on failure rate keep their summary order in a ranking: the tied rows
      it holds are the first of the tied rows of the summary, in that order. */
  lemma RankingKeepsTieOrder(summary: seq<(string, Counts)>, n: nat, c: real)
    ensures var tied := Filter(FailureRanking(summary, n), KeyIs(RateOf, c));
            var all := Filter(MapSeq(summary, FailureRowOf), KeyIs(RateOf, c));
            |tied| <= |all| && tied == all[..|tied|]
  {
    var rows := MapSeq(summary, FailureRowOf);
    var sorted := SortDesc(rows, RateOf);
    var r := FailureRanking(summary, n);
    assert sorted == r + sorted[|r|..];
    FilterAppend(r, sorted[|r|..], KeyIs(RateOf, c));
    SortDescStable(rows, RateOf, c);
  }

  // ---------------------------------------------------------------- first-ten series

  /** A chart's labels and data, index-aligned. */
  datatype Series = Series(labels: seq<string>, data: seq<real>)

  /** The first ten samples called `name`, in encounter order (not ranked by value), as
      labels and values. */
  function FirstSeries(ms: seq<Sample>, name: string, labelOf: Sample -> string): (r: Series)
    ensures |r.labels| == |r.data| == Min(10, |WithName(ms, name)|)
    ensures forall i :: 0 <= i < |r.data|
                        ==> r.labels[i] == labelOf(WithName(ms, name)[i]) && r.data[i] == WithName(ms, name)[i].value
  {
    var first := Take(WithName(ms, name), 10);
    Series(MapSeq(first, labelOf), MapSeq(first, Value))
  }

  /** Once ten samples have been seen, later samples change nothing. */
  lemma FirstSeriesIgnoresLater(a: seq<Sample>, b: seq<Sample>, name: string, labelOf: Sample -> string)
    requires |WithName(a, name)| >= 10
    ensures FirstSeries(a + b, name, labelOf) == FirstSeries(a, name, labelOf)
  {
    FilterAppend(a, b, NameIs(name));
    var w := WithName(a, name);
    assert Take(w + WithName(b, name), 10) == Take(w, 10);
  }

  /** `m.labels?.tool || "unknown"` */
  function ToolLabel(s: Sample): string
  {
    LabelOr(s, "tool", "unknown")
  }

  /** `providerToolData` */
  function ToolUsage(custom: seq<Sample>): Series
  {
    FirstSeries(custom, ToolMetric, ToolLabel)
  }

  /** `${m.labels?.method || ""} ${m.labels?.route || ""}` */
  function MethodRoute(s: Sample): string
  {
    LabelOr(s, "method", "") + " " + LabelOr(s, "route", "")
  }

  /** `httpDurationData` */
  function RequestCounts(http: seq<Sample>): Series
  {
    FirstSeries(http, DurationCount, MethodRoute)
  }

  // ---------------------------------------------------------------- per-status totals

  /** `m.name === "mw_provider_status_count" && m.labels?.status === status` */
  function HasStatus(status: string): Sample -> bool
  {
    (s: Sample) => s.name == StatusMetric && Label(s, "status") == Some(status)
  }

  /** The sum of the values of every status sample reporting `status`, whatever the provider. */
  function StatusTotal(custom: seq<Sample>, status: string): real
  {
    SumOf(Filter(custom, HasStatus(status)), Value)
  }

  /** `providerStatusData`'s three bars. */
  function StatusTotals(custom: seq<Sample>): (r: seq<real>)
    ensures |r| == 3
  {
    [StatusTotal(custom, "success"), StatusTotal(custom, "failed"), StatusTotal(custom, "notfound")]
  }

  /** Totals add up over concatenated runs of samples. */
  lemma StatusTotalAppend(a: seq<Sample>, b: seq<Sample>, status: string)
    ensures StatusTotal(a + b, status) == StatusTotal(a, status) + StatusTotal(b, status)
  {
    FilterAppend(a, b, HasStatus(status));
    SumOfAppend(Filter(a, HasStatus(status)), Filter(b, HasStatus(status)), Value);
  }

  /** No provider reports the same tracked status twice. */
  predicate OneReportEach(custom: seq<Sample>)
  {
    forall i, j :: 0 <= i < j < |custom| && custom[i].name == StatusMetric && custom[j].name == StatusMetric
                   && Tracked(StatusOf(custom[j]))
                   ==> ProviderOf(custom[i]) != ProviderOf(custom[j]) || StatusOf(custom[i]) != StatusOf(custom[j])
  }

  /** One more sample adds its value to its status's total. */
  lemma StatusTotalSnoc(custom: seq<Sample>, status: string)
    requires |custom| > 0
    ensures var x := custom[|custom| - 1];
            StatusTotal(custom, status)
            == StatusTotal(custom[..|custom| - 1], status) + (if HasStatus(status)(x) then x.value else 0.0)
  {
    var x := custom[|custom| - 1];
    var mine: seq<Sample> := if HasStatus(status)(x) then [x] else [];
    FilterSnoc(custom, HasStatus(status));
    SumOfAppend(Filter(custom[..|custom| - 1], HasStatus(status)), mine, Value);
    assert SumOf(mine, Value) == if HasStatus(status)(x) then x.value else 0.0 by {
      assert mine == [] || mine[1..] == [];
    }
  }

  /** One more status sample changes a counter's sum over the summary by the change it makes
      to its own provider's counter. */
  lemma SummarySnoc(custom: seq<Sample>, status: string)
    requires |custom| > 0
    ensures var x := custom[|custom| - 1];
            var acc := ProviderSummary(custom[..|custom| - 1]);
            var f := Counter(status);
            var prior := Assoc.Get(acc, ProviderOf(x));
            Assoc.SumValues(ProviderSummary(custom), f)
            == Assoc.SumValues(acc, f)
               + (if x.name == StatusMetric then f(SummaryStep(prior, x)) - MapOr(prior, f, 0.0) else 0.0)
  {
    var x := custom[|custom| - 1];
    var acc := ProviderSummary(custom[..|custom| - 1]);
    if x.name == StatusMetric {
      var p := ProviderOf(x);
      Assoc.PutSumValues(acc, p, SummaryStep(Assoc.Get(acc, p), x), Counter(status));
    }
  }

  /** One provider's counter for a tracked status is the value of that provider's last
      sample with the status, or 0. */
  lemma SummaryCounter(custom: seq<Sample>, p: string, status: string)
    requires Tracked(status)
    ensures MapOr(Assoc.Get(ProviderSummary(custom), p), Counter(status), 0.0)
            == LastStatus(ProviderSamples(custom, p), status)
  {
    Assoc.GroupGet(custom, SummaryKey, SummaryStep, p);
    CountsLastWins(ProviderSamples(custom, p), SummaryStep, AsCounts, status);
    var c := Assoc.Get(ProviderSummary(custom), p);
    if c.Some? {
      assert AsCounts(c.value) == c.value;
    }
  }

  /** A provider with no earlier sample of a status has that counter at 0. */
  lemma FreshCounter(front: seq<Sample>, p: string, status: string)
    requires Tracked(status)
    requires forall k :: 0 <= k < |front| && front[k].name == StatusMetric && ProviderOf(front[k]) == p
                         ==> StatusOf(front[k]) != status
    ensures MapOr(Assoc.Get(ProviderSummary(front), p), Counter(status), 0.0) == 0.0
  {
    SummaryCounter(front, p, status);
    var ms := ProviderSamples(front, p);
    forall i | 0 <= i < |ms| ensures StatusOf(ms[i]) != status {
      assert ms[i] in front && Assoc.HasKey(SummaryKey, p)(ms[i]);
      var k :| 0 <= k < |front| && front[k] == ms[i];
      assert SummaryKey(front[k]) == Some(p);
      assert front[k].name == StatusMetric && ProviderOf(front[k]) == p;
    }
    LastStatusNone(ms, status);
  }

  /** A status sample sets its own status's counter and carries the others over. */
  lemma StepField(o: Option<Counts>, x: Sample, status: string)
    requires Tracked(status)
    ensures Counter(status)(SummaryStep(o, x))
            == if StatusOf(x) == status then x.value else MapOr(o, Counter(status), 0.0)
    ensures HasStatus(status)(x) <==> x.name == StatusMetric && StatusOf(x) == status
  {
    var f := Counter(status);
    var base := o.GetOr(Zero);
    assert f(SummaryStep(o, x)) == Field(Assign(base, StatusOf(x), x.value), status);
    assert MapOr(o, f, 0.0) == Field(base, status);
  }

  /** When each provider reports each status at most once, a status's bar is the sum of that
      counter over the summary: the two views of the same samples agree. */
  lemma {:induction false} StatusTotalMatchesSummary(custom: seq<Sample>, status: string)
    requires Tracked(status)
    requires OneReportEach(custom)
    ensures StatusTotal(custom, status) == Assoc.SumValues(ProviderSummary(custom), Counter(status))
  {
    if |custom| > 0 {
      var front := custom[..|custom| - 1];
      var x := custom[|custom| - 1];
      assert OneReportEach(front) by {
        assert forall i :: 0 <= i < |front| ==> front[i] == custom[i];
      }
      StatusTotalMatchesSummary(front, status);
      StatusTotalSnoc(custom, status);
      SummarySnoc(custom, status);
      var prior := Assoc.Get(ProviderSummary(front), ProviderOf(x));
      StepField(prior, x, status);
      if x.name == StatusMetric && StatusOf(x) == status {
        assert forall k :: 0 <= k < |front| ==> front[k] == custom[k];
        FreshCounter(front, ProviderOf(x), status);
      }
    }
  }

  // ---------------------------------------------------------------- route latency

  datatype Timing = Timing(sum: real, count: real)

  /** A duration sample with a non-empty route and method is filed under `method route`;
      every other sample is passed over. */
  function RouteKey(s: Sample): (r: Option<string>)
    ensures r.Some? <==> StartsWith(s.name, DurationPrefix) && Label(s, "route").GetOr("") != "" && Label(s, "method").GetOr("") != ""
    ensures r.Some? ==> r.value == Label(s, "method").value + " " + Label(s, "route").value
  {
    var route := LabelOr(s, "route", "");
    var verb := LabelOr(s, "method", "");
    if StartsWith(s.name, DurationPrefix) && route != "" && verb != "" then Some(verb + " " + route) else None
  }

  /** `_sum` assigns the sum and `_count` the count; any other duration sample (a bucket,
      say) only makes sure the route has a `{ sum: 0, count: 0 }` entry. */
  function TimingStep(o: Option<Timing>, s: Sample): Timing
  {
    var t := o.GetOr(Timing(0.0, 0.0));
    if s.name == DurationSum then t.(sum := s.value)
    else if s.name == DurationCount then t.(count := s.value)
    else t
  }

  /** `routeTimings` */
  function RouteTimings(http: seq<Sample>): seq<(string, Timing)>
  {
    Assoc.Group(http, RouteKey, TimingStep)
  }

  function SumOfTiming(t: Timing): real
  {
    t.sum
  }

  function CountOfTiming(t: Timing): real
  {
    t.count
  }

  /** The duration samples filed under `route`, in order. */
  function RouteSamples(http: seq<Sample>, route: string): seq<Sample>
  {
    Filter(http, Assoc.HasKey(RouteKey, route))
  }

  /** A route has an entry exactly when some duration sample with a route and a method names
      it, and each route has one entry. */
  lemma RouteTimingsKeys(http: seq<Sample>, route: string)
    ensures Assoc.DistinctKeys(RouteTimings(http))
    ensures route in Assoc.Keys(RouteTimings(http)) <==> exists i :: 0 <= i < |http| && RouteKey(http[i]) == Some(route)
  {
    Assoc.GroupDistinct(http, RouteKey, TimingStep);
    Assoc.GroupKeys(http, RouteKey, TimingStep, route);
  }

  /** A route's sum is the value of its last `_sum` sample, or 0 when it has none. */
  lemma RouteSumLastWins(http: seq<Sample>, route: string)
    ensures MapOr(Assoc.Get(RouteTimings(http), route), SumOfTiming, 0.0)
            == MapOr(LastOf(RouteSamples(http, route), NameIs(DurationSum)), Value, 0.0)
  {
    Assoc.GroupGet(http, RouteKey, TimingStep, route);
    forall o, s
      ensures SumOfTiming(TimingStep(o, s)) == if NameIs(DurationSum)(s) then Value(s) else MapOr(o, SumOfTiming, 0.0)
    {
    }
    AccumulateLastWins(RouteSamples(http, route), TimingStep, SumOfTiming, NameIs(DurationSum), Value, 0.0);
  }

  /** A route's count is the value of its last `_count` sample, or 0 when it has none. */
  lemma RouteCountLastWins(http: seq<Sample>, route: string)
    ensures MapOr(Assoc.Get(RouteTimings(http), route), CountOfTiming, 0.0)
            == MapOr(LastOf(RouteSamples(http, route), NameIs(DurationCount)), Value, 0.0)
  {
    Assoc.GroupGet(http, RouteKey, TimingStep, route);
    forall o, s
      ensures CountOfTiming(TimingStep(o, s)) == if NameIs(DurationCount)(s) then Value(s) else MapOr(o, CountOfTiming, 0.0)
    {
    }
    AccumulateLastWins(RouteSamples(http, route), TimingStep, CountOfTiming, NameIs(DurationCount), Value, 0.0);
  }

  /** `(sum / count) * 1000`, with 0 standing for a route that has no count. */
  function AvgMs(t: Timing): (r: real)
    ensures t.count != 0.0 ==> r * t.count == t.sum * 1000.0
  {
    if t.count == 0.0 then 0.0 else t.sum / t.count * 1000.0
  }

  datatype RouteRow = RouteRow(route: string, avgTime: real)

  function RouteRowOf(e: (string, Timing)): RouteRow
  {
    RouteRow(e.0, AvgMs(e.1))
  }

  function AvgOfRow(r: RouteRow): real
  {
    r.avgTime
  }

  function RouteOfRow(r: RouteRow): string
  {
    r.route
  }

  function AvgOfEntry(e: (string, Timing)): real
  {
    AvgMs(e.1)
  }

  /** `responseTimeData`: the labels are the routes ranked by average, and the data are the
      averages ranked on their own, each cut to ten. */
  function ResponseTimes(timings: seq<(string, Timing)>): Series
  {
    Series(MapSeq(Take(SortDesc(MapSeq(timings, RouteRowOf), AvgOfRow), 10), RouteOfRow),
           Take(SortDesc(MapSeq(timings, AvgOfEntry), Identity), 10))
  }

  /** The two separately sorted lists line up: the data are non-increasing, there are as many
      as labels, and each datum is the average of the route labelled beside it. */
  lemma ResponseTimesAligned(timings: seq<(string, Timing)>)
    requires Assoc.DistinctKeys(timings)
    ensures var r := ResponseTimes(timings);
            && |r.labels| == |r.data| == Min(10, |timings|)
            && SortedDesc(r.data, Identity)
            && (forall i :: 0 <= i < |r.data| ==>
                  Assoc.Get(timings, r.labels[i]).Some? && r.data[i] == AvgMs(Assoc.Get(timings, r.labels[i]).value))
  {
    var rows := MapSeq(timings, RouteRowOf);
    var sorted := SortDesc(rows, AvgOfRow);
    SortDescKeys(rows, AvgOfRow);
    assert MapSeq(rows, AvgOfRow) == MapSeq(timings, AvgOfEntry);
    var r := ResponseTimes(timings);
    forall i | 0 <= i < |r.data|
      ensures Assoc.Get(timings, r.labels[i]).Some? && r.data[i] == AvgMs(Assoc.Get(timings, r.labels[i]).value)
    {
      assert r.data[i] == sorted[i].avgTime;
      assert r.labels[i] == sorted[i].route;
      assert sorted[i] in multiset(rows);
      var k :| 0 <= k < |rows| && rows[k] == sorted[i];
      Assoc.GetAt(timings, k);
    }
  }

  // ---------------------------------------------------------------- overview figures

  /** `totalWatchRequests`: the sum of every media-watch sample's value. */
  function TotalWatchRequests(custom: seq<Sample>): real
  {
    SumOf(WithName(custom, WatchMetric), Value)
  }

  /** `m.labels?.hostname`, absent when the sample has no such label. */
  function HostLabel(s: Sample): Option<string>
  {
    Label(s, "hostname")
  }

  /** The hostname labels of the hostname samples, in order. */
  function HostLabels(custom: seq<Sample>): seq<Option<string>>
  {
    MapSeq(WithName(custom, HostnameMetric), HostLabel)
  }

  /** `new Set(...map((m) => m.labels?.hostname)).size`: an absent label is one more value. */
  function UniqueHosts(custom: seq<Sample>): nat
  {
    var ls := HostLabels(custom);
    |set i | 0 <= i < |ls| :: ls[i]|
  }

  /** The number of hosts is the length of the list of hostname labels without repeats, and
      so never more than the number of hostname samples. */
  lemma UniqueHostsDistinct(custom: seq<Sample>)
    ensures UniqueHosts(custom) == |Dedup(HostLabels(custom))|
    ensures UniqueHosts(custom) <= |WithName(custom, HostnameMetric)|
  {
    DedupSize(HostLabels(custom));
  }

  /** `ms.find((m) => m.name === name)?.value || 0` */
  function FirstValue(ms: seq<Sample>, name: string): real
  {
    var i := FindIndex(ms, NameIs(name));
    if i < |ms| then ms[i].value else 0.0
  }

  /** What `find` returns is the first sample of the filter by name, or 0 when there is none. */
  lemma FirstValueIsFirstMatch(ms: seq<Sample>, name: string)
    ensures FirstValue(ms, name) == if WithName(ms, name) == [] then 0.0 else WithName(ms, name)[0].value
  {
    FindIndexFilter(ms, NameIs(name));
  }

  /** `activeUsers` */
  function ActiveUsers(custom: seq<Sample>): real
  {
    FirstValue(custom, UserMetric)
  }

  /** `eventLoopLag`, before display rounding. */
  function EventLoopLag(node: seq<Sample>): real
  {
    FirstValue(node, LagMetric)
  }
}
