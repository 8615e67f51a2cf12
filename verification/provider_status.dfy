/** The provider lifetime table: per-provider counters, a running total and a success rate,
    ranked by total and narrowed by a search term. */
module ProviderStatus {
  import opened Wrappers
  import opened Strings
  import opened Seqs
  import Assoc
  import opened Numbers
  import opened MetricTypes
  import opened StatusCounts
  import Dashboard

  /** One table row (`ProviderStats`). */
  datatype ProviderStats = ProviderStats(provider: string, counts: Counts, total: real, successRate: real)

  /** Every status sample is filed under its provider. */
  function ProviderKey(s: Sample): Option<string>
  {
    Some(Dashboard.ProviderOf(s))
  }

  /** One sample's effect on its provider's row: `row[status] = value` writes whichever field
      the status names, so a `total` status overwrites the total before the value is added to
      it; then the value is added to the total and the success rate is recomputed. */
  function StatsStep(o: Option<ProviderStats>, s: Sample): ProviderStats
  {
    var base := o.GetOr(ProviderStats(Dashboard.ProviderOf(s), Zero, 0.0, 0.0));
    var status := StatusOf(s);
    var counts := Assign(base.counts, status, s.value);
    var total := (if status == "total" then s.value else base.total) + s.value;
    ProviderStats(base.provider, counts, total, Percent(counts.success, total))
  }

  /** `providerStats`: the status samples reduced per provider, in order of first appearance. */
  function ProviderTable(metrics: seq<Sample>): seq<(string, ProviderStats)>
  {
    Assoc.Group(WithName(metrics, Dashboard.StatusMetric), ProviderKey, StatsStep)
  }

  function CountsOf(st: ProviderStats): Counts
  {
    st.counts
  }

  function ProviderOfStats(st: ProviderStats): string
  {
    st.provider
  }

  function TotalOf(st: ProviderStats): real
  {
    st.total
  }

  /** A provider's row is what its status samples build, which are the samples the dashboard
      summary files under it. */
  lemma TableEntry(metrics: seq<Sample>, p: string)
    ensures Assoc.Get(ProviderTable(metrics), p) == Accumulate(Dashboard.ProviderSamples(metrics, p), StatsStep)
  {
    var named := WithName(metrics, Dashboard.StatusMetric);
    var mine := Filter(named, Assoc.HasKey(ProviderKey, p));
    assert Assoc.Get(ProviderTable(metrics), p) == Accumulate(mine, StatsStep) by {
      Assoc.GroupGet(named, ProviderKey, StatsStep, p);
    }
    assert mine == Dashboard.ProviderSamples(metrics, p) by {
      forall x ensures Assoc.HasKey(Dashboard.SummaryKey, p)(x)
                       == (NameIs(Dashboard.StatusMetric)(x) && Assoc.HasKey(ProviderKey, p)(x))
      {
        assert Dashboard.SummaryKey(x) == if x.name == Dashboard.StatusMetric then Some(Dashboard.ProviderOf(x)) else None;
        assert ProviderKey(x) == Some(Dashboard.ProviderOf(x));
      }
      FilterFilter(metrics, NameIs(Dashboard.StatusMetric), Assoc.HasKey(ProviderKey, p), Assoc.HasKey(Dashboard.SummaryKey, p));
    }
  }

  /** The table has a row for exactly the providers the dashboard summary has counters for,
      the row is labelled with its provider, and its counters are the summary's: both keep
      the last value reported for each status. */
  lemma {:induction false} TableMatchesSummary(metrics: seq<Sample>, p: string)
    ensures Assoc.Get(ProviderTable(metrics), p).Some? <==> Assoc.Get(Dashboard.ProviderSummary(metrics), p).Some?
    ensures var row := Assoc.Get(ProviderTable(metrics), p);
            row.Some? ==> row.value.provider == p
                          && row.value.counts == Assoc.Get(Dashboard.ProviderSummary(metrics), p).value
  {
    var ms := Dashboard.ProviderSamples(metrics, p);
    var row := Assoc.Get(ProviderTable(metrics), p);
    var counts := Assoc.Get(Dashboard.ProviderSummary(metrics), p);
    assert row == Accumulate(ms, StatsStep) by {
      TableEntry(metrics, p);
    }
    assert counts == Accumulate(ms, Dashboard.SummaryStep) by {
      Assoc.GroupGet(metrics, Dashboard.SummaryKey, Dashboard.SummaryStep, p);
    }
    if |ms| > 0 {
      RowOfProvider(metrics, p);
      RowMatchesSummary(metrics, p);
    }
  }

  /** A provider's row is labelled with that provider. */
  lemma RowOfProvider(metrics: seq<Sample>, p: string)
    requires |Dashboard.ProviderSamples(metrics, p)| > 0
    ensures Accumulate(Dashboard.ProviderSamples(metrics, p), StatsStep).value.provider == p
  {
    var ms := Dashboard.ProviderSamples(metrics, p);
    var first := ms[0];
    assert Assoc.HasKey(Dashboard.SummaryKey, p)(first);
    assert Dashboard.ProviderOf(first) == p by {
      assert Dashboard.SummaryKey(first) == Some(p);
    }
    RowProvider(ms);
  }

  /** A provider's row holds the summary's counters, all three of them. */
  lemma RowMatchesSummary(metrics: seq<Sample>, p: string)
    requires |Dashboard.ProviderSamples(metrics, p)| > 0
    ensures var ms := Dashboard.ProviderSamples(metrics, p);
            Accumulate(ms, StatsStep).value.counts == Accumulate(ms, Dashboard.SummaryStep).value
  {
    var ms := Dashboard.ProviderSamples(metrics, p);
    RowCounts(metrics, p, "success");
    RowCounts(metrics, p, "failed");
    RowCounts(metrics, p, "notfound");
    SameCounts(Accumulate(ms, StatsStep).value.counts, Accumulate(ms, Dashboard.SummaryStep).value);
  }

  /** A row is labelled with the provider of its first sample. */
  lemma RowProvider(ms: seq<Sample>)
    requires |ms| > 0
    ensures Accumulate(ms, StatsStep).value.provider == Dashboard.ProviderOf(ms[0])
  {
    forall x ensures ProviderOfStats(StatsStep(None, x)) == Dashboard.ProviderOf(x) {
    }
    forall v, x ensures ProviderOfStats(StatsStep(Some(v), x)) == ProviderOfStats(v) {
    }
    AccumulateFirst(ms, StatsStep, ProviderOfStats, Dashboard.ProviderOf);
  }

  /** A row's counter for a status equals the summary's. */
  lemma RowCounts(metrics: seq<Sample>, p: string, status: string)
    requires Tracked(status)
    requires |Dashboard.ProviderSamples(metrics, p)| > 0
    ensures var ms := Dashboard.ProviderSamples(metrics, p);
            Counter(status)(Accumulate(ms, StatsStep).value.counts)
            == Counter(status)(Accumulate(ms, Dashboard.SummaryStep).value)
  {
    var ms := Dashboard.ProviderSamples(metrics, p);
    RowCounter(ms, status);
    Dashboard.SummaryCounter(metrics, p, status);
    Assoc.GroupGet(metrics, Dashboard.SummaryKey, Dashboard.SummaryStep, p);
  }

  lemma SameCounts(a: Counts, b: Counts)
    requires Counter("success")(a) == Counter("success")(b)
    requires Counter("failed")(a) == Counter("failed")(b)
    requires Counter("notfound")(a) == Counter("notfound")(b)
    ensures a == b
  {
    assert Field(a, "success") == a.success && Field(b, "success") == b.success;
    assert Field(a, "failed") == a.failed && Field(b, "failed") == b.failed;
    assert Field(a, "notfound") == a.notfound && Field(b, "notfound") == b.notfound;
  }

  /** Each counter of a row is the value of the last sample reporting its status, or 0. */
  lemma RowCounter(ms: seq<Sample>, status: string)
    requires Tracked(status)
    requires |ms| > 0
    ensures Counter(status)(Accumulate(ms, StatsStep).value.counts) == LastStatus(ms, status)
  {
    CountsLastWins(ms, StatsStep, CountsOf, status);
  }

  /** The reported status is not the name of the `total` field. */
  predicate NoTotalStatus(metrics: seq<Sample>)
  {
    forall i :: 0 <= i < |metrics| ==> StatusOf(metrics[i]) != "total"
  }

  /** Unless a status is literally `total`, a provider's total is the sum of the values of all
      its status samples, including repeats and statuses without a counter. */
  lemma TotalIsSum(metrics: seq<Sample>, p: string)
    requires NoTotalStatus(metrics)
    ensures MapOr(Assoc.Get(ProviderTable(metrics), p), TotalOf, 0.0)
            == SumOf(Dashboard.ProviderSamples(metrics, p), Value)
  {
    TableEntry(metrics, p);
    var ms := Dashboard.ProviderSamples(metrics, p);
    forall i, o | 0 <= i < |ms|
      ensures TotalOf(StatsStep(o, ms[i])) == MapOr(o, TotalOf, 0.0) + Value(ms[i])
    {
      assert ms[i] in metrics;
    }
    AccumulateSum(ms, StatsStep, TotalOf, Value);
  }

  /** A sample that can be summed: a non-negative value under a status other than `total`. */
  predicate Countable(s: Sample)
  {
    s.value >= 0.0 && StatusOf(s) != "total"
  }

  /** A row whose counters are non-negative and together no more than its total, with the
      success rate taken against that total. */
  predicate Consistent(st: ProviderStats)
  {
    && 0.0 <= st.counts.success && 0.0 <= st.counts.failed && 0.0 <= st.counts.notfound
    && st.counts.success + st.counts.failed + st.counts.notfound <= st.total
    && st.successRate == Percent(st.counts.success, st.total)
  }

  lemma StepConsistent(o: Option<ProviderStats>, s: Sample)
    requires Countable(s)
    requires MapOr(o, Consistent, true)
    ensures Consistent(StatsStep(o, s))
  {
  }

  /** With non-negative values and no `total` status, every row's counters fit in its total
      and its success rate lies between 0 and 100 per cent. */
  lemma TableConsistent(metrics: seq<Sample>, i: nat)
    requires forall k :: 0 <= k < |metrics| ==> Countable(metrics[k])
    requires i < |ProviderTable(metrics)|
    ensures Consistent(ProviderTable(metrics)[i].1)
    ensures 0.0 <= ProviderTable(metrics)[i].1.successRate <= 100.0
  {
    var table := ProviderTable(metrics);
    var e := table[i];
    var status := WithName(metrics, Dashboard.StatusMetric);
    Assoc.GroupEntry(status, ProviderKey, StatsStep, i);
    var ms := Filter(status, Assoc.HasKey(ProviderKey, e.0));
    forall k | 0 <= k < |ms| ensures Countable(ms[k]) {
      assert ms[k] in status;
      assert ms[k] in metrics;
    }
    forall o, s | Countable(s) && MapOr(o, Consistent, true) ensures Consistent(StatsStep(o, s)) {
      StepConsistent(o, s);
    }
    AccumulateInvariant(ms, StatsStep, Countable, Consistent);
    PercentBounds(e.1.counts.success, e.1.total);
  }

  /** `provider.toLowerCase().includes(term)` */
  function ProviderMatches(term: string): ProviderStats -> bool
  {
    (st: ProviderStats) => Includes(ToLower(st.provider), term)
  }

  /** `sortedStats`: the rows ranked by total, highest first, narrowed to the providers whose
      name contains the search term, ignoring ASCII case. */
  function Visible(table: seq<(string, ProviderStats)>, term: string): seq<ProviderStats>
  {
    Filter(SortDesc(Assoc.Values(table), TotalOf), ProviderMatches(ToLower(term)))
  }

  /** The rows shown are ranked by total, and a row is shown exactly when it is in the table
      and its provider matches the term. */
  lemma VisibleRows(table: seq<(string, ProviderStats)>, term: string, st: ProviderStats)
    ensures SortedDesc(Visible(table, term), TotalOf)
    ensures st in Visible(table, term) <==> st in Assoc.Values(table) && Includes(ToLower(st.provider), ToLower(term))
  {
    var sorted := SortDesc(Assoc.Values(table), TotalOf);
    FilterSorted(sorted, ProviderMatches(ToLower(term)), TotalOf);
    assert st in sorted <==> st in multiset(sorted);
  }

  /** An empty term hides nothing. */
  lemma VisibleEmptyTerm(table: seq<(string, ProviderStats)>)
    ensures Visible(table, "") == SortDesc(Assoc.Values(table), TotalOf)
  {
    var sorted := SortDesc(Assoc.Values(table), TotalOf);
    forall i | 0 <= i < |sorted| ensures ProviderMatches("")(sorted[i]) {
      IncludesEmpty(ToLower(sorted[i].provider));
    }
    FilterAll(sorted, ProviderMatches(""));
  }
}
