/** The most-watched table: the media-watch samples reduced per title, with one attempt per
    provider, a running total and a success rate, ranked by total and narrowed by a search
    term over titles and successful providers. */
module MediaWatch {
  import opened Wrappers
  import opened Strings
  import opened Seqs
  import Assoc
  import opened Numbers
  import opened MetricTypes
  import Dashboard

  /** What one provider did for one title. `success` is the outcome of the provider's first
      sample and is never revised; the counters are. */
  datatype Attempt = Attempt(providerId: string, success: bool, count: real, successCount: real, failureCount: real)

  /** One table row (`MediaStats`). */
  datatype MediaStats = MediaStats(title: string, tmdbId: string, attempts: seq<Attempt>, totalCount: real, successRate: real)

  /** `curr.labels?.tmdb_full_id || "unknown"` */
  function TmdbOf(s: Sample): string
  {
    LabelOr(s, "tmdb_full_id", "unknown")
  }

  /** `curr.labels?.title || "Unknown"` */
  function TitleOf(s: Sample): string
  {
    LabelOr(s, "title", "Unknown")
  }

  /** `curr.labels?.success === "true"`: only that exact label counts as a success. */
  function Succeeded(s: Sample): bool
  {
    Label(s, "success") == Some("true")
  }

  function ProviderIs(pid: string): Attempt -> bool
  {
    (a: Attempt) => a.providerId == pid
  }

  function ProviderIdOf(a: Attempt): string
  {
    a.providerId
  }

  function AttemptCount(a: Attempt): real
  {
    a.count
  }

  function SuccessCount(a: Attempt): real
  {
    a.successCount
  }

  function FailureCount(a: Attempt): real
  {
    a.failureCount
  }

  function Success(a: Attempt): bool
  {
    a.success
  }

  /** `attempts.find((a) => a.providerId === providerId)`: the first attempt by `pid`. */
  function AttemptOf(attempts: seq<Attempt>, pid: string): Option<Attempt>
  {
    var i := FindIndex(attempts, ProviderIs(pid));
    if i < |attempts| then Some(attempts[i]) else None
  }

  /** The providers of a list of attempts, in order. */
  function Providers(attempts: seq<Attempt>): seq<string>
  {
    MapSeq(attempts, ProviderIdOf)
  }

  /** An attempt's count is its successes plus its failures. */
  predicate Balanced(a: Attempt)
  {
    a.count == a.successCount + a.failureCount
  }

  /** Record `v` more watches of the provider `pid`: the first attempt by that provider gets
      them added to its count and to its success or failure counter; a provider without an
      attempt gets a new one at the end. */
  function AddAttempt(attempts: seq<Attempt>, pid: string, ok: bool, v: real): seq<Attempt>
  {
    var i := FindIndex(attempts, ProviderIs(pid));
    if i < |attempts| then
      var a := attempts[i];
      attempts[i := a.(successCount := if ok then a.successCount + v else a.successCount,
                       failureCount := if ok then a.failureCount else a.failureCount + v,
                       count := a.count + v)]
    else attempts + [Attempt(pid, ok, v, if ok then v else 0.0, if ok then 0.0 else v)]
  }

  /** Adding watches keeps one attempt per provider in order of first appearance, raises the
      total count by `v` and the success total by `v` exactly when they succeeded, and keeps
      every attempt balanced. */
  lemma AddAttemptEffect(attempts: seq<Attempt>, pid: string, ok: bool, v: real)
    ensures var r := AddAttempt(attempts, pid, ok, v);
            && (pid in Providers(attempts) ==> Providers(r) == Providers(attempts))
            && (pid !in Providers(attempts) ==> Providers(r) == Providers(attempts) + [pid])
            && SumOf(r, AttemptCount) == SumOf(attempts, AttemptCount) + v
            && SumOf(r, SuccessCount) == SumOf(attempts, SuccessCount) + (if ok then v else 0.0)
            && ((forall k :: 0 <= k < |attempts| ==> Balanced(attempts[k])) ==> (forall k :: 0 <= k < |r| ==> Balanced(r[k])))
            && (forall k :: 0 <= k < |attempts| && attempts[k].providerId != pid ==> r[k] == attempts[k])
  {
    var i := FindIndex(attempts, ProviderIs(pid));
    var r := AddAttempt(attempts, pid, ok, v);
    if i < |attempts| {
      SumOfUpdate(attempts, i, r[i], AttemptCount);
      SumOfUpdate(attempts, i, r[i], SuccessCount);
      assert Providers(r) == Providers(attempts);
      assert pid in Providers(attempts) by {
        assert Providers(attempts)[i] == pid;
      }
    } else {
      var added := r[|attempts|];
      SumOfAppend(attempts, [added], AttemptCount);
      SumOfAppend(attempts, [added], SuccessCount);
      assert [added][1..] == [];
      assert Providers(r) == Providers(attempts) + [pid];
      assert pid !in Providers(attempts) by {
        forall k | 0 <= k < |attempts| ensures Providers(attempts)[k] != pid {
          assert !ProviderIs(pid)(attempts[k]);
        }
      }
    }
  }

  /** Adding watches of `pid` credits them to `pid`'s attempt alone: its count grows by `v`
      and its success or failure counter by `v` according to `ok`, its `success` flag stays
      that of its first sample (a new attempt takes `ok`), and every other provider's
      attempt is the one it was. */
  lemma AddAttemptCredits(attempts: seq<Attempt>, pid: string, ok: bool, v: real)
    ensures var r := AddAttempt(attempts, pid, ok, v);
            var before := AttemptOf(attempts, pid);
            && (forall q :: q != pid ==> AttemptOf(r, q) == AttemptOf(attempts, q))
            && AttemptOf(r, pid).Some?
            && AttemptOf(r, pid).value.providerId == pid
            && AttemptOf(r, pid).value.success == MapOr(before, Success, ok)
            && AttemptOf(r, pid).value.count == MapOr(before, AttemptCount, 0.0) + v
            && AttemptOf(r, pid).value.successCount == MapOr(before, SuccessCount, 0.0) + (if ok then v else 0.0)
            && AttemptOf(r, pid).value.failureCount == MapOr(before, FailureCount, 0.0) + (if ok then 0.0 else v)
  {
    forall q | q != pid ensures AttemptOf(AddAttempt(attempts, pid, ok, v), q) == AttemptOf(attempts, q) {
      AddAttemptOther(attempts, pid, ok, v, q);
    }
    AddAttemptTarget(attempts, pid, ok, v);
  }

  /** `find` on the updated attempts finds what it found before; a provider it did not find
      is found only if it is `pid`, at the end where its new attempt goes. */
  lemma AddAttemptFinds(attempts: seq<Attempt>, pid: string, ok: bool, v: real, q: string)
    ensures var r := AddAttempt(attempts, pid, ok, v);
            var i := FindIndex(attempts, ProviderIs(q));
            FindIndex(r, ProviderIs(q)) == if i < |attempts| then i else if q == pid then |attempts| else |r|
  {
    var r := AddAttempt(attempts, pid, ok, v);
    if FindIndex(attempts, ProviderIs(pid)) < |attempts| {
      FindIndexAgree(attempts, r, ProviderIs(q), ProviderIs(q));
    } else {
      assert r == attempts + [r[|attempts|]];
      FindIndexSnoc(attempts, r[|attempts|], ProviderIs(q));
    }
  }

  /** Adding watches of `pid` leaves the attempt of every other provider as it was. */
  lemma AddAttemptOther(attempts: seq<Attempt>, pid: string, ok: bool, v: real, q: string)
    requires q != pid
    ensures AttemptOf(AddAttempt(attempts, pid, ok, v), q) == AttemptOf(attempts, q)
  {
    AddAttemptFinds(attempts, pid, ok, v, q);
  }

  /** Adding watches of `pid` grows `pid`'s attempt, or starts one. */
  lemma AddAttemptTarget(attempts: seq<Attempt>, pid: string, ok: bool, v: real)
    ensures var r := AddAttempt(attempts, pid, ok, v);
            var before := AttemptOf(attempts, pid);
            && AttemptOf(r, pid).Some?
            && AttemptOf(r, pid).value.providerId == pid
            && AttemptOf(r, pid).value.success == MapOr(before, Success, ok)
            && AttemptOf(r, pid).value.count == MapOr(before, AttemptCount, 0.0) + v
            && AttemptOf(r, pid).value.successCount == MapOr(before, SuccessCount, 0.0) + (if ok then v else 0.0)
            && AttemptOf(r, pid).value.failureCount == MapOr(before, FailureCount, 0.0) + (if ok then 0.0 else v)
  {
    AddAttemptFinds(attempts, pid, ok, v, pid);
  }

  /** `mediaStats`' step: a title's row starts from the first sample's title and id with no
      attempts, records the sample's watches against its provider, adds them to the total and
      recomputes the success rate as successful watches over all watches. */
  function MediaStep(o: Option<MediaStats>, s: Sample): MediaStats
  {
    var base := o.GetOr(MediaStats(TitleOf(s), TmdbOf(s), [], 0.0, 0.0));
    var attempts := AddAttempt(base.attempts, Dashboard.ProviderOf(s), Succeeded(s), s.value);
    var total := base.totalCount + s.value;
    MediaStats(base.title, base.tmdbId, attempts, total, Percent(SumOf(attempts, SuccessCount), total))
  }

  /** Every media-watch sample is filed under its title id. */
  function TmdbKey(s: Sample): Option<string>
  {
    Some(TmdbOf(s))
  }

  /** `mediaStats`: one row per title id, in order of first appearance. */
  function MediaTable(metrics: seq<Sample>): seq<(string, MediaStats)>
  {
    Assoc.Group(WithName(metrics, Dashboard.WatchMetric), TmdbKey, MediaStep)
  }

  /** The media-watch samples of one title id, in order. */
  function TitleSamples(metrics: seq<Sample>, id: string): seq<Sample>
  {
    Filter(WithName(metrics, Dashboard.WatchMetric), Assoc.HasKey(TmdbKey, id))
  }

  /** A row's totals agree with its attempts: each attempt is balanced, no provider has two
      attempts, the total is the sum of the attempts' counts and the rate is successful
      watches over the total. */
  predicate WellFormed(m: MediaStats)
  {
    && (forall k :: 0 <= k < |m.attempts| ==> Balanced(m.attempts[k]))
    && (forall j, k :: 0 <= j < k < |m.attempts| ==> m.attempts[j].providerId != m.attempts[k].providerId)
    && m.totalCount == SumOf(m.attempts, AttemptCount)
    && m.successRate == Percent(SumOf(m.attempts, SuccessCount), m.totalCount)
  }

  /** Every sample: the invariant below holds whatever sample a step takes. */
  function AnySample(s: Sample): bool
  {
    true
  }

  lemma StepWellFormed(o: Option<MediaStats>, s: Sample)
    requires MapOr(o, WellFormed, true)
    ensures WellFormed(MediaStep(o, s))
  {
    var base := o.GetOr(MediaStats(TitleOf(s), TmdbOf(s), [], 0.0, 0.0));
    var pid := Dashboard.ProviderOf(s);
    AddAttemptEffect(base.attempts, pid, Succeeded(s), s.value);
    var r := AddAttempt(base.attempts, pid, Succeeded(s), s.value);
    forall j, k | 0 <= j < k < |r| ensures r[j].providerId != r[k].providerId {
      assert Providers(r)[j] == r[j].providerId && Providers(r)[k] == r[k].providerId;
      if k >= |base.attempts| {
        assert Providers(r)[k] == pid && pid !in Providers(base.attempts);
        assert Providers(base.attempts)[j] == r[j].providerId;
      } else {
        assert Providers(base.attempts)[j] == r[j].providerId;
        assert Providers(base.attempts)[k] == r[k].providerId;
      }
    }
  }

  /** Every row of the table is well formed. */
  lemma TableWellFormed(metrics: seq<Sample>, i: nat)
    requires i < |MediaTable(metrics)|
    ensures WellFormed(MediaTable(metrics)[i].1)
  {
    var e := MediaTable(metrics)[i];
    Assoc.GroupEntry(WithName(metrics, Dashboard.WatchMetric), TmdbKey, MediaStep, i);
    var ms := TitleSamples(metrics, e.0);
    forall o, s | AnySample(s) && MapOr(o, WellFormed, true) ensures WellFormed(MediaStep(o, s)) {
      StepWellFormed(o, s);
    }
    AccumulateInvariant(ms, MediaStep, AnySample, WellFormed);
  }

  function TitleOfStats(m: MediaStats): string
  {
    m.title
  }

  function TmdbOfStats(m: MediaStats): string
  {
    m.tmdbId
  }

  function TotalCountOf(m: MediaStats): real
  {
    m.totalCount
  }

  /** A run of samples for one title is labelled with the title and id of its first sample. */
  lemma RunTitle(ms: seq<Sample>)
    requires |ms| > 0
    ensures Accumulate(ms, MediaStep).value.title == TitleOf(ms[0])
    ensures Accumulate(ms, MediaStep).value.tmdbId == TmdbOf(ms[0])
  {
    forall x ensures TitleOfStats(MediaStep(None, x)) == TitleOf(x) {
    }
    forall v, x ensures TitleOfStats(MediaStep(Some(v), x)) == TitleOfStats(v) {
    }
    forall x ensures TmdbOfStats(MediaStep(None, x)) == TmdbOf(x) {
    }
    forall v, x ensures TmdbOfStats(MediaStep(Some(v), x)) == TmdbOfStats(v) {
    }
    AccumulateFirst(ms, MediaStep, TitleOfStats, TitleOf);
    AccumulateFirst(ms, MediaStep, TmdbOfStats, TmdbOf);
  }

  /** A run's total is the sum of its samples' values. */
  lemma RunTotal(ms: seq<Sample>)
    ensures MapOr(Accumulate(ms, MediaStep), TotalCountOf, 0.0) == SumOf(ms, Value)
  {
    forall i, o | 0 <= i < |ms| ensures TotalCountOf(MediaStep(o, ms[i])) == MapOr(o, TotalCountOf, 0.0) + Value(ms[i]) {
    }
    AccumulateSum(ms, MediaStep, TotalCountOf, Value);
  }

  /** A title id has a row exactly when it has samples; the row carries the title and id of
      its first sample, and its total is the sum of the values of all its samples. */
  lemma RowOfTitle(metrics: seq<Sample>, id: string)
    ensures var row := Assoc.Get(MediaTable(metrics), id);
            var ms := TitleSamples(metrics, id);
            && (row.Some? <==> |ms| > 0)
            && (row.Some? ==> row.value.title == TitleOf(ms[0]) && row.value.tmdbId == id)
            && MapOr(row, TotalCountOf, 0.0) == SumOf(ms, Value)
  {
    Assoc.GroupGet(WithName(metrics, Dashboard.WatchMetric), TmdbKey, MediaStep, id);
    var ms := TitleSamples(metrics, id);
    RunTotal(ms);
    if |ms| > 0 {
      RunTitle(ms);
      assert Assoc.HasKey(TmdbKey, id)(ms[0]);
      assert TmdbKey(ms[0]) == Some(TmdbOf(ms[0]));
    }
  }

  /** The rows' totals add up to the overview's total of watch requests. */
  lemma TotalsMatchOverview(metrics: seq<Sample>)
    ensures Assoc.SumValues(MediaTable(metrics), TotalCountOf) == Dashboard.TotalWatchRequests(metrics)
  {
    var named := WithName(metrics, Dashboard.WatchMetric);
    forall o, x ensures TotalCountOf(MediaStep(o, x)) == MapOr(o, TotalCountOf, 0.0) + Value(x) {
    }
    Assoc.GroupSum(named, TmdbKey, MediaStep, TotalCountOf, Value);
  }

  /** A row's attempts list each provider of its samples once, in order of first appearance. */
  lemma {:induction false} AttemptProviders(ms: seq<Sample>)
    requires |ms| > 0
    ensures Providers(Accumulate(ms, MediaStep).value.attempts) == Dedup(MapSeq(ms, Dashboard.ProviderOf))
  {
    var front := ms[..|ms| - 1];
    var x := ms[|ms| - 1];
    var ps := MapSeq(ms, Dashboard.ProviderOf);
    assert MapSeq(front, Dashboard.ProviderOf) == ps[..|ps| - 1];
    var base := Accumulate(front, MediaStep).GetOr(MediaStats(TitleOf(x), TmdbOf(x), [], 0.0, 0.0));
    var before: seq<string> := if |front| == 0 then [] else Dedup(MapSeq(front, Dashboard.ProviderOf));
    assert Providers(base.attempts) == before by {
      if |front| > 0 {
        AttemptProviders(front);
      }
    }
    AddAttemptEffect(base.attempts, Dashboard.ProviderOf(x), Succeeded(x), x.value);
  }

  /** The samples reported by the provider `pid` (`provider_id || "unknown"`). */
  function ByProvider(pid: string): Sample -> bool
  {
    (s: Sample) => Dashboard.ProviderOf(s) == pid
  }

  function Failed(s: Sample): bool
  {
    !Succeeded(s)
  }

  function AttemptsOf(m: MediaStats): seq<Attempt>
  {
    m.attempts
  }

  /** The attempts of the row a run of samples builds; none for an empty run. */
  function RunAttempts(ms: seq<Sample>): seq<Attempt>
  {
    MapOr(Accumulate(ms, MediaStep), AttemptsOf, [])
  }

  /** `attempts` credits the provider `pid` with exactly its own samples `mine`: there is an
      attempt for `pid` exactly when `mine` is non-empty, its `success` flag is the outcome of
      the first of them, its count is their summed watches and its success and failure
      counters are the watches of the successful and the failed ones. */
  predicate CreditsProvider(attempts: seq<Attempt>, pid: string, mine: seq<Sample>)
  {
    && (AttemptOf(attempts, pid).Some? <==> |mine| > 0)
    && (|mine| > 0 ==>
          && AttemptOf(attempts, pid).value.success == Succeeded(mine[0])
          && AttemptOf(attempts, pid).value.count == SumOf(mine, Value)
          && AttemptOf(attempts, pid).value.successCount == SumOf(Filter(mine, Succeeded), Value)
          && AttemptOf(attempts, pid).value.failureCount == SumOf(Filter(mine, Failed), Value))
  }

  /** One more sample of `pid` keeps `pid` credited with its samples. */
  lemma CreditsSnoc(attempts: seq<Attempt>, pid: string, mine: seq<Sample>, s: Sample)
    requires CreditsProvider(attempts, pid, mine)
    requires Dashboard.ProviderOf(s) == pid
    ensures CreditsProvider(AddAttempt(attempts, pid, Succeeded(s), s.value), pid, mine + [s])
  {
    var r := AddAttempt(attempts, pid, Succeeded(s), s.value);
    var all := mine + [s];
    AddAttemptTarget(attempts, pid, Succeeded(s), s.value);
    var a := AttemptOf(r, pid).value;
    assert a.success == Succeeded(all[0]) by {
      assert all[0] == if |mine| > 0 then mine[0] else s;
    }
    assert a.count == SumOf(all, Value)
        && a.successCount == SumOf(Filter(all, Succeeded), Value)
        && a.failureCount == SumOf(Filter(all, Failed), Value) by {
      SumsSnoc(mine, s);
    }
  }

  /** One more sample adds its watches to the run's sum, and to the sum of the successful or
      of the failed samples according to its outcome. */
  lemma SumsSnoc(mine: seq<Sample>, s: Sample)
    ensures SumOf(mine + [s], Value) == SumOf(mine, Value) + s.value
    ensures SumOf(Filter(mine + [s], Succeeded), Value)
            == SumOf(Filter(mine, Succeeded), Value) + (if Succeeded(s) then s.value else 0.0)
    ensures SumOf(Filter(mine + [s], Failed), Value)
            == SumOf(Filter(mine, Failed), Value) + (if Succeeded(s) then 0.0 else s.value)
  {
    assert [s][1..] == [];
    SumOfAppend(mine, [s], Value);
    FilterAppend(mine, [s], Succeeded);
    FilterAppend(mine, [s], Failed);
    SumOfAppend(Filter(mine, Succeeded), Filter([s], Succeeded), Value);
    SumOfAppend(Filter(mine, Failed), Filter([s], Failed), Value);
  }

  /** The row of a non-empty run is the row of all but its last sample with that sample's
      watches recorded. */
  lemma RunAttemptsSnoc(ms: seq<Sample>)
    requires |ms| > 0
    ensures var s := ms[|ms| - 1];
            RunAttempts(ms) == AddAttempt(RunAttempts(ms[..|ms| - 1]), Dashboard.ProviderOf(s), Succeeded(s), s.value)
  {
    var init, s := ms[..|ms| - 1], ms[|ms| - 1];
    assert ms == init + [s];
    AccumulateSnoc(init, s, MediaStep);
  }

  /** One more sample keeps `pid` credited with its samples, whichever provider reported it. */
  lemma CreditsStep(attempts: seq<Attempt>, pid: string, mine: seq<Sample>, s: Sample)
    requires CreditsProvider(attempts, pid, mine)
    ensures CreditsProvider(AddAttempt(attempts, Dashboard.ProviderOf(s), Succeeded(s), s.value), pid,
                            if Dashboard.ProviderOf(s) == pid then mine + [s] else mine)
  {
    if Dashboard.ProviderOf(s) == pid {
      CreditsSnoc(attempts, pid, mine, s);
    } else {
      CreditsOther(attempts, pid, mine, s);
    }
  }

  /** In the row a run of samples builds, every provider's attempt is credited with exactly
      that provider's samples of the run. */
  lemma {:induction false} RunCredits(ms: seq<Sample>, pid: string)
    ensures CreditsProvider(RunAttempts(ms), pid, Filter(ms, ByProvider(pid)))
  {
    if |ms| > 0 {
      var init, s := ms[..|ms| - 1], ms[|ms| - 1];
      var mine := Filter(init, ByProvider(pid));
      RunCredits(init, pid);
      assert RunAttempts(ms) == AddAttempt(RunAttempts(init), Dashboard.ProviderOf(s), Succeeded(s), s.value) by {
        RunAttemptsSnoc(ms);
      }
      assert Filter(ms, ByProvider(pid)) == if Dashboard.ProviderOf(s) == pid then mine + [s] else mine by {
        FilterSnoc(ms, ByProvider(pid));
      }
      CreditsStep(RunAttempts(init), pid, mine, s);
    }
  }

  /** A sample of another provider leaves `pid` credited as it was. */
  lemma CreditsOther(attempts: seq<Attempt>, pid: string, mine: seq<Sample>, s: Sample)
    requires CreditsProvider(attempts, pid, mine)
    requires Dashboard.ProviderOf(s) != pid
    ensures CreditsProvider(AddAttempt(attempts, Dashboard.ProviderOf(s), Succeeded(s), s.value), pid, mine)
  {
    AddAttemptOther(attempts, Dashboard.ProviderOf(s), Succeeded(s), s.value, pid);
  }

  /** In every row of the table, each provider's attempt is credited with exactly that
      provider's samples for the title. */
  lemma RowCredits(metrics: seq<Sample>, id: string, pid: string)
    ensures var row := Assoc.Get(MediaTable(metrics), id);
            row.Some? ==> CreditsProvider(row.value.attempts, pid, Filter(TitleSamples(metrics, id), ByProvider(pid)))
  {
    Assoc.GroupGet(WithName(metrics, Dashboard.WatchMetric), TmdbKey, MediaStep, id);
    RunCredits(TitleSamples(metrics, id), pid);
  }

  /** A row's success rate is between 0 and 100 per cent when no sample has a negative value. */
  lemma RateBounded(metrics: seq<Sample>, i: nat)
    requires forall k :: 0 <= k < |metrics| ==> metrics[k].value >= 0.0
    requires i < |MediaTable(metrics)|
    ensures 0.0 <= MediaTable(metrics)[i].1.successRate <= 100.0
  {
    var e := MediaTable(metrics)[i];
    Assoc.GroupEntry(WithName(metrics, Dashboard.WatchMetric), TmdbKey, MediaStep, i);
    var ms := TitleSamples(metrics, e.0);
    forall k | 0 <= k < |ms| ensures NonNegative(ms[k]) {
      assert ms[k] in WithName(metrics, Dashboard.WatchMetric);
      assert ms[k] in metrics;
    }
    forall o, s | NonNegative(s) && MapOr(o, Sane, true) ensures Sane(MediaStep(o, s)) {
      StepSane(o, s);
    }
    AccumulateInvariant(ms, MediaStep, NonNegative, Sane);
    var m := e.1;
    SumOfNonNeg(m.attempts, SuccessCount);
    SumOfLe(m.attempts, SuccessCount, AttemptCount);
    PercentBounds(SumOf(m.attempts, SuccessCount), m.totalCount);
  }

  predicate NonNegative(s: Sample)
  {
    s.value >= 0.0
  }

  /** A well-formed row whose attempts have non-negative counters. */
  predicate Sane(m: MediaStats)
  {
    WellFormed(m) && forall k :: 0 <= k < |m.attempts| ==> 0.0 <= m.attempts[k].successCount && 0.0 <= m.attempts[k].failureCount
  }

  lemma StepSane(o: Option<MediaStats>, s: Sample)
    requires NonNegative(s)
    requires MapOr(o, Sane, true)
    ensures Sane(MediaStep(o, s))
  {
    StepWellFormed(o, s);
  }

  // ---------------------------------------------------------------- search and ranking

  /** Whether a row matches a lower-cased term: by title, or by a provider with at least one
      successful watch. */
  predicate Matches(m: MediaStats, term: string)
  {
    || Includes(ToLower(m.title), term)
    || exists k | 0 <= k < |m.attempts| :: m.attempts[k].successCount > 0.0 && Includes(ToLower(m.attempts[k].providerId), term)
  }

  /** `!searchTerm` keeps every row. */
  function Keep(term: string): MediaStats -> bool
  {
    (m: MediaStats) => term == "" || Matches(m, ToLower(term))
  }

  /** `sortedStats`: the rows ranked by total, highest first, narrowed by the term, and cut
      to twenty only when there is no term. */
  function Visible(table: seq<(string, MediaStats)>, term: string): seq<MediaStats>
  {
    var kept := Filter(SortDesc(Assoc.Values(table), TotalCountOf), Keep(term));
    if term == "" then Take(kept, 20) else kept
  }

  /** The rows shown are ranked by total. */
  lemma VisibleSorted(table: seq<(string, MediaStats)>, term: string)
    ensures SortedDesc(Visible(table, term), TotalCountOf)
  {
    var sorted := SortDesc(Assoc.Values(table), TotalCountOf);
    FilterSorted(sorted, Keep(term), TotalCountOf);
    var kept := Filter(sorted, Keep(term));
    assert Visible(table, term) == kept[..|Visible(table, term)|];
  }

  /** With a term, a row is shown exactly when it is in the table and matches. */
  lemma VisibleSearch(table: seq<(string, MediaStats)>, term: string, m: MediaStats)
    requires term != ""
    ensures m in Visible(table, term) <==> m in Assoc.Values(table) && Matches(m, ToLower(term))
  {
    var sorted := SortDesc(Assoc.Values(table), TotalCountOf);
    assert m in sorted <==> m in multiset(sorted);
    assert Keep(term)(m) == Matches(m, ToLower(term));
  }

  /** Without a term, the twenty rows with the highest totals are shown. */
  lemma VisibleTop(table: seq<(string, MediaStats)>)
    ensures Visible(table, "") == Take(SortDesc(Assoc.Values(table), TotalCountOf), 20)
  {
    var sorted := SortDesc(Assoc.Values(table), TotalCountOf);
    FilterAll(sorted, Keep(""));
  }
}
