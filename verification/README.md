# metrics-dash core, modelled in Dafny

metrics-dash is a dashboard for a media service's Prometheus endpoint. It fetches the text
exposition, turns its lines into samples (`parsePrometheusMetrics`), sorts the samples into
four buckets by name prefix, and reduces them into charts and tables:

- the provider status summary and its failure-rate rankings;
- the tool-usage and request-count series;
- the per-status totals;
- the route latency chart;
- the overview figures;
- the most-watched table;
- the provider lifetime table;
- the backend-usage table.

The raw viewer names the downloaded response after the metrics host and the date.

This project models that core as pure functions over immutable data and proves what the
dashboard relies on:

- what the line parser accepts and what it extracts;
- that the buckets partition the samples;
- that the per-key reductions keep the last value reported, or sum all of them, as the code does;
- that rows, totals and shares agree with each other;
- that rankings are sorted, stable and complete;
- that searches show exactly the matching rows.

Modules, one per file:

| file | module | models |
|---|---|---|
| wrappers.dfy | `Wrappers` | `Option` and `Result` |
| strings.dfy | `Strings` | ECMAScript white space, `trim`, `split`/`join`, `startsWith`, `includes`, `toLowerCase`, `replace(/c/g, "")` |
| seqs.dfy | `Seqs` | `filter`, `slice`, `map`, `reduce`, `find`, stable descending `sort`, de-duplication |
| assoc.dfy | `Assoc` | plain objects used as dictionaries: insertion-ordered keys, `acc[k] = …`, and the filter-and-reduce-per-key pattern (`Group`) |
| numbers.dfy | `Numbers` | `parseFloat` on value tokens, `formatNumber`'s choice of unit, percentages |
| metric_types.dfy | `MetricTypes` | `MetricValue`, `ParsedMetrics`, label reads with a fallback for a missing or empty label |
| exposition.dfy | `Exposition` | `parsePrometheusMetrics`: directives, the two sample-line shapes, label blocks, classification |
| status_counts.dfy | `StatusCounts` | the `success`/`failed`/`notfound` counters shared by the summary and the provider table |
| dashboard.dfy | `Dashboard` | the reductions of the dashboard page |
| provider_status.dfy | `ProviderStatus` | the provider lifetime table |
| hostname_stats.dfy | `HostnameStats` | the backend-usage table |
| media_watch.dfy | `MediaWatch` | the most-watched table |
| raw_viewer.dfy | `RawViewer` | `getDomainFromUrl` and the download file name |

Modelling choices:

- Numbers are exact reals. JavaScript's doubles are not modelled.
- Where JavaScript divides by zero and gets `NaN` or `Infinity`, the model's `Percent` and `AvgMs` give 0. Every lemma about a quotient says what holds when the denominator is not zero.
- `parseFloat` returns `None` where JavaScript gives `NaN`.
- A sample's labels are `None` when its line had no label block.
- Objects used as dictionaries are association lists whose keys keep their order of first assignment.
- `Array.prototype.sort` is stable, so it is modelled as a stable insertion sort on the comparator's key, highest first.
- The current date is a parameter: the ISO timestamp string.

## Model

| member | source | states |
|---|---|---|
| Exposition.ParsePrometheusMetrics | src/lib/metrics.ts:3-90 | the parse fails exactly on the empty text; any other text gives the buckets of what each line of the trimmed text emits, concatenated in line order, each line read under the metadata the directives before it left, with directives and labels read as the source reads them |
| Exposition.ParseIntended | src/lib/metrics.ts:3-90 | the same parse with `# HELP`, `# TYPE` and label values read as evidently intended: it too fails exactly on the empty text and otherwise gives the buckets of the per-line emissions in line order |
| Exposition.ParseReadingsAgree | src/lib/metrics.ts:12-60 | a text with no `# HELP` or `# TYPE` line and no `=` inside a label value parses to the same result under the source's reading and the intended one |
| Exposition.TypeReadingsDiffer | src/lib/metrics.ts:22-28 | after `# TYPE name kind` the next sample carries the type `name` as the source reads it, and `kind` as intended |
| Exposition.TypeThenSample | src/lib/metrics.ts:22-72 | a `# TYPE` line followed by a sample line emits one sample, which carries the type that directive left pending |
| Exposition.ParseSamples | src/lib/metrics.ts:8-74 | the samples of a text are the per-line emissions of its trimmed lines, concatenated in line order |
| Exposition.PassIsLineByLine | src/lib/metrics.ts:12-74 | the pass over the first n lines leaves pending what the directives among them leave, and emits exactly the per-line emissions in order |
| Exposition.StepLineSplits | src/lib/metrics.ts:13-29 | one line of the pass is the directive update of the metadata and, for a line neither blank nor a comment, that line's emission |
| Exposition.ScanAgrees | src/lib/metrics.ts:12-74 | over lines without directives and without `=` in label values, the source's pass and the intended pass give the same metadata and samples |
| Exposition.EmitAgrees | src/lib/metrics.ts:36-72 | a sample line without `=` in its label values emits the same sample under both readings |
| Exposition.LabelsAgree | src/lib/metrics.ts:53-59 | for matched pairs whose values hold no `=`, the source's label map equals the intended one |
| Exposition.WhitespaceOnly | src/lib/metrics.ts:4-13 | text made only of white space is not an error: it trims to one empty line, which is skipped, and all four buckets are empty |
| Exposition.DirectiveParts | src/lib/metrics.ts:16 | splitting `# <word> <name> <rest>` on spaces gives `#`, the word, the name and then the pieces of the rest |
| Exposition.HelpDirectiveReads | src/lib/metrics.ts:15-21 | the intended reading of `# HELP name text` records exactly the name and the whole text and forgets any pending type |
| Exposition.HelpAsWrittenMisreads | src/lib/metrics.ts:15-21 | the reading as written records the name `HELP` and the help `name text`, for every name and text |
| Exposition.TypeDirectiveReads | src/lib/metrics.ts:22-28 | the intended reading of `# TYPE name type` records the name and the type and keeps the pending help |
| Exposition.TypeAsWrittenMisreads | src/lib/metrics.ts:22-28 | the reading as written records the name `TYPE` and takes the metric name for the type |
| Exposition.HelpAsWritten | src/lib/metrics.ts:15-21 | computes the source's `# HELP` update: with at least three space-separated parts, a fresh record of `parts[1]` and the rest joined by spaces; its effect is stated by `HelpAsWrittenMisreads` |
| Exposition.TypeAsWritten | src/lib/metrics.ts:22-28 | computes the source's `# TYPE` update: with at least three parts, `parts[1]` and `parts[2]` replace the pending name and type, keeping the help; its effect is stated by `TypeAsWrittenMisreads` |
| Exposition.HelpDirective | src/lib/metrics.ts:15-21 | computes the intended `# HELP` update, from `parts[2]` and `parts[3..]`; its effect is stated by `HelpDirectiveReads` |
| Exposition.TypeDirective | src/lib/metrics.ts:22-28 | computes the intended `# TYPE` update, from `parts[2]` and `parts[3]`; its effect is stated by `TypeDirectiveReads` |
| Exposition.MatchValueTail | src/lib/metrics.ts:36 | a matched value tail is a non-empty token of `[0-9.-]` characters that is shorter than the text it was matched in, so white space precedes it |
| Exposition.ValueTailSound | src/lib/metrics.ts:36 | a matched tail is all white space up to the token, and the token runs to the end |
| Exposition.ValueTailComplete | src/lib/metrics.ts:36 | every non-empty run of white space followed by a non-empty value token is matched, and the match yields that token |
| Exposition.MatchBasic | src/lib/metrics.ts:36-39 | a line recognised without labels has no block, a non-empty name free of white space and `{`, and a non-empty value token |
| Exposition.BasicSound | src/lib/metrics.ts:36-39 | a recognised line begins with its name, and the rest of the line is a value tail that holds its token |
| Exposition.BasicComplete | src/lib/metrics.ts:36-39 | every line of the shape name, white space, token is recognised with exactly those parts |
| Exposition.MatchLabelled | src/lib/metrics.ts:42-46 | a line recognised with labels has a block, a non-empty name made of name characters and a non-empty value token |
| Exposition.LabelledBlock | src/lib/metrics.ts:42-45 | the block captured is `{`, then a non-empty run free of `}`, then `}` |
| Exposition.LabelledSound | src/lib/metrics.ts:42-46 | the line is its name, then its block, then a value tail that holds its token |
| Exposition.LabelledComplete | src/lib/metrics.ts:42-46 | every line `name{inner} ws token` with `inner` free of `}` is recognised with exactly that name, block and token |
| Exposition.PairAt | src/lib/metrics.ts:50-52 | a label match at the start of the block text consists of a key free of `,` and `=`, `="`, a non-empty value free of `"`, and `"`, and its length is reported |
| Exposition.PairAtText | src/lib/metrics.ts:50-52 | the text `key="value"`, whatever follows it, is matched there whole with its key and value as the groups, even when the value holds `=` |
| Exposition.ScanPairs | src/lib/metrics.ts:50-52 | every pair the global match finds has a non-empty key free of `,` and `=`, and a non-empty value free of `"` |
| Exposition.ScanPairsText | src/lib/metrics.ts:50-52 | scanning the comma-joined texts `k1="v1",k2="v2",…` of well-formed pairs gives back exactly those pairs, in order |
| Exposition.LabelsOfBlock | src/lib/metrics.ts:48-60 | read as intended, the block written out from well-formed pairs gives the label map built by assigning those pairs in order |
| Exposition.LabelsFromGet | src/lib/metrics.ts:54-57 | read as intended, a key of the label map holds the value of the last pair whose trimmed key it is, and a key no pair trims to is absent |
| Exposition.EntryAsWrittenAgrees | src/lib/metrics.ts:55-57 | for a value without `=`, splitting on `=` and stripping quotes gives the trimmed key and the whole value, as intended |
| Exposition.EntryAsWrittenCuts | src/lib/metrics.ts:55-57 | for a value `a=b`, the reading as written keeps only `a`: everything from the first `=` on is lost |
| Exposition.EntryAsWrittenCutsValue | src/lib/metrics.ts:55-57 | concrete case: `a="b=c"` gives `a` the value `b` as written, where the intended entry is `b=c` |
| Exposition.EntryAsWritten | src/lib/metrics.ts:55-57 | computes the source's entry for one matched label: split on `=`, and when both parts are non-empty the trimmed key and the quote-free second part; stated by `EntryAsWrittenAgrees` and `EntryAsWrittenCuts` |
| Exposition.Entry | src/lib/metrics.ts:55-57 | computes the intended entry: the trimmed key and the whole value; stated by `SingleLabel` and `LabelsFromGet` |
| Exposition.ParseLabels | src/lib/metrics.ts:48-60 | computes the label map of a block under a reading, assigning the matched pairs in order; stated by `LabelsOfBlock`, `LabelsFromGet` and `LabelsAgree` |
| Exposition.SingleLabel | src/lib/metrics.ts:48-60 | read as intended, the block `{key="value"}` yields exactly the trimmed key mapped to the whole value |
| Exposition.DataNamePrefix | src/lib/metrics.ts:36-46 | the name of a recognised line, of either shape, is a prefix of the line |
| Exposition.Emit | src/lib/metrics.ts:31-72 | a data line emits exactly one sample when one of the two shapes matches and its value token is a number, and none otherwise; the sample has the matched name and the token's value; its type is the pending type or `untyped`, and its help is the pending help or empty; it carries labels exactly when the line did not match the label-free shape, and they are the labels of the matched block |
| Exposition.StepLineEffect | src/lib/metrics.ts:12-29 | blank lines and comments other than `# HELP`/`# TYPE` change nothing; no `#` line emits; a line that emits leaves the metadata as it was |
| Exposition.StepLine | src/lib/metrics.ts:12-29 | computes one line of the pass under a reading: skip blank lines, apply `# HELP` and `# TYPE`, skip other comments, emit otherwise; stated by `StepLineEffect` and `StepLineSplits` |
| Exposition.ScanSamplesNamed | src/lib/metrics.ts:64-72 | every sample of a whole pass has a non-empty name made of name characters and a non-empty type |
| Exposition.EmitIgnoresPendingName | src/lib/metrics.ts:31-46 | what a line emits does not depend on the name recorded by the last directive |
| Exposition.Classify | src/lib/metrics.ts:82-89 | each bucket holds exactly the samples whose name carries its prefix (`process_`, `nodejs_`, `http_`, `mw_`) |
| Exposition.ClassifyDisjoint | src/lib/metrics.ts:82-89 | no sample is in two buckets |
| Exposition.ClassifyAppend | src/lib/metrics.ts:82-89 | classifying two runs of samples one after the other gives each bucket as the concatenation, so line order is kept |
| Numbers.ParseNum | src/lib/metrics.ts:39 | `parseFloat` is `NaN` exactly when, after an optional sign, neither a digit nor a point followed by a digit comes next; a leading `-` gives a non-positive value and no `-` a non-negative one |
| Numbers.ParseNumDigits | src/lib/metrics.ts:39 | the decimal digits of a whole number read back as that number, with or without a minus sign |
| Numbers.FormatNumber | src/lib/metrics.ts:92-104 | `Invalid number` exactly for `NaN`; millions from one million up; thousands from one thousand up to below a million; the plain value below one thousand; in each case the scaled value times its unit is the number |
| Numbers.Percent | src/components/metrics/ProviderStatusTable.tsx:56 | for a non-zero whole, the result times the whole is a hundred times the part |
| Numbers.PercentBounds | src/components/metrics/ProviderStatusTable.tsx:56 | a part between 0 and a non-negative whole is between 0 and 100 per cent of it |
| StatusCounts.Assign | src/pages/Dashboard.tsx:84-90 | a tracked status's counter is set to the value, not added to; every other counter is kept, and an untracked status changes nothing |
| StatusCounts.CountsLastWins | src/pages/Dashboard.tsx:78-91 | for any reducer whose step assigns by status, each tracked counter after a run is the value of the run's last sample with that status, or 0 |
| StatusCounts.LastStatusNone | src/pages/Dashboard.tsx:81-83 | a run without a sample of a status leaves that counter at its initial 0 |
| Dashboard.SummaryKeys | src/pages/Dashboard.tsx:76-92 | a provider has counters exactly when some status sample names it, and no provider has two entries |
| Dashboard.ProviderSummary | src/pages/Dashboard.tsx:76-92 | computes `providerStats` as the per-provider reduction of the status samples; stated by `SummaryKeys`, `SummaryLastWins` and `SummaryCounter` |
| Dashboard.SummaryLastWins | src/pages/Dashboard.tsx:76-92 | each of a provider's three counters is the value of that provider's last sample with that status, or 0 |
| Dashboard.SummaryCounter | src/pages/Dashboard.tsx:78-90 | a missing provider reads as 0; otherwise a tracked counter is the provider's last value for the status |
| Dashboard.FreshCounter | src/pages/Dashboard.tsx:81-83 | a provider with no earlier sample of a status has that counter at 0 |
| Dashboard.StepField | src/pages/Dashboard.tsx:84-90 | one status sample sets its own status's counter to its value and carries the others over |
| Dashboard.SummarySnoc | src/pages/Dashboard.tsx:78-91 | one more status sample changes a counter's sum over all providers by exactly the change it makes to its own provider's counter |
| Dashboard.FailureRowOf | src/pages/Dashboard.tsx:96-99 | a row keeps its provider and counters, and for a non-zero total its rate times the total is a hundred times the failures |
| Dashboard.FailureRanking | src/pages/Dashboard.tsx:95-111 | the ranking has `min(n, providers)` rows, sorted by failure rate from highest, and each row is a distinct row of the summary |
| Dashboard.RankingPrefix | src/pages/Dashboard.tsx:95-111 | the top-ten ranking is the first ten rows of the top-twenty ranking |
| Dashboard.RankingKeepsTieOrder | src/pages/Dashboard.tsx:95-111 | providers that tie on failure rate appear in a ranking in summary order: its tied rows are the first tied rows of the summary |
| Dashboard.RankingKeepsHighest | src/pages/Dashboard.tsx:101-102 | a provider left out of a ranking has a failure rate no higher than every provider in it |
| Dashboard.FirstSeries | src/pages/Dashboard.tsx:113-149 | labels and data are aligned and number `min(10, matching samples)`; position i holds the label and value of the i-th sample with the name, in encounter order |
| Dashboard.FirstSeriesIgnoresLater | src/pages/Dashboard.tsx:114-116 | once ten matching samples have been seen, later samples do not change the chart |
| Dashboard.ToolUsage | src/pages/Dashboard.tsx:113-132 | computes the tool chart as the first ten `mw_provider_tool_count` samples, labelled by tool; stated by `FirstSeries` |
| Dashboard.RequestCounts | src/pages/Dashboard.tsx:134-149 | computes the request chart as the first ten `http_request_duration_seconds_count` samples, labelled `method route`; stated by `FirstSeries` |
| Dashboard.StatusTotals | src/pages/Dashboard.tsx:151-188 | the bar has three values, the success, failed and not-found totals; what each total is is stated by `StatusTotalSnoc`, `StatusTotalAppend` and `StatusTotalMatchesSummary` |
| Dashboard.StatusTotalAppend | src/pages/Dashboard.tsx:157-177 | a status total over two runs of samples is the sum of the two totals |
| Dashboard.StatusTotalSnoc | src/pages/Dashboard.tsx:157-163 | one more sample adds its value to its status's total, and only when it is a status sample with that status |
| Dashboard.StatusTotalMatchesSummary | src/pages/Dashboard.tsx:157-177 | when no provider reports a status twice, the status bar equals the sum of that counter over the provider summary |
| Dashboard.RouteKey | src/pages/Dashboard.tsx:222-228 | a sample is filed under a route exactly when its name starts with `http_request_duration_seconds` and its `route` and `method` labels are present and non-empty; the key is the method, a space and the route |
| Dashboard.RouteTimingsKeys | src/pages/Dashboard.tsx:221-243 | a route has an entry exactly when a duration sample with a non-empty route and method names it, and no route has two entries |
| Dashboard.RouteSumLastWins | src/pages/Dashboard.tsx:236-237 | a route's sum is its last `_sum` sample's value, or 0 when it has none |
| Dashboard.RouteCountLastWins | src/pages/Dashboard.tsx:238-239 | a route's count is its last `_count` sample's value, or 0 when it has none |
| Dashboard.RouteTimings | src/pages/Dashboard.tsx:221-243 | computes `routeTimings` as the per-route reduction of the duration samples; stated by `RouteTimingsKeys`, `RouteSumLastWins` and `RouteCountLastWins` |
| Dashboard.AvgMs | src/pages/Dashboard.tsx:250 | for a non-zero count, the average times the count is a thousand times the sum, so it is in milliseconds |
| Dashboard.ResponseTimesAligned | src/pages/Dashboard.tsx:246-265 | the two separately sorted lists line up: they have the same length, at most ten; the data are non-increasing; each datum is the average of the route labelled beside it |
| Dashboard.ResponseTimes | src/pages/Dashboard.tsx:246-265 | computes the response-time chart as two separately sorted, ten-element lists of labels and averages; stated by `ResponseTimesAligned` |
| Dashboard.TotalWatchRequests | src/pages/Dashboard.tsx:280-285 | computes the sum of the `mw_media_watch_count` values; related to the table by `MediaWatch.TotalsMatchOverview` |
| Dashboard.UniqueHosts | src/pages/Dashboard.tsx:287-291 | computes the number of distinct hostname labels; stated by `UniqueHostsDistinct` |
| Dashboard.UniqueHostsDistinct | src/pages/Dashboard.tsx:287-291 | the host count is the number of distinct hostname labels, with a missing label counted once, and is at most the number of hostname samples |
| Dashboard.FirstValueIsFirstMatch | src/pages/Dashboard.tsx:297-302 | the value `find` yields, falling back to 0, is the value of the first sample with the name, or 0 when there is none |
| Dashboard.ActiveUsers | src/pages/Dashboard.tsx:297-298 | computes the value of the first `mw_user_count` sample, or 0; stated by `FirstValueIsFirstMatch` |
| Dashboard.EventLoopLag | src/pages/Dashboard.tsx:299-302 | computes the value of the first event-loop-lag sample, or 0, before formatting; stated by `FirstValueIsFirstMatch` |
| ProviderStatus.TableEntry | src/components/metrics/ProviderStatusTable.tsx:35-59 | a provider's row is what its status samples build, and they are the samples the dashboard summary files under it |
| ProviderStatus.StatsStep | src/components/metrics/ProviderStatusTable.tsx:38-57 | computes one sample's effect on a provider's row: assign the status field, add to the total, recompute the rate; stated by `RowCounter`, `TotalIsSum` and `StepConsistent` |
| ProviderStatus.ProviderTable | src/components/metrics/ProviderStatusTable.tsx:35-59 | computes the per-provider reduction of the status samples; stated by `TableEntry` and `TableMatchesSummary` |
| ProviderStatus.TableMatchesSummary | src/components/metrics/ProviderStatusTable.tsx:35-59 | the table has a row for exactly the providers the summary has; each row is labelled with its provider and carries the summary's counters |
| ProviderStatus.RowOfProvider | src/components/metrics/ProviderStatusTable.tsx:38-45 | a provider's row is labelled with that provider |
| ProviderStatus.RowMatchesSummary | src/components/metrics/ProviderStatusTable.tsx:54 | a provider's row holds the dashboard summary's three counters |
| ProviderStatus.RowProvider | src/components/metrics/ProviderStatusTable.tsx:42-51 | a row is labelled with the provider of its first sample |
| ProviderStatus.RowCounter | src/components/metrics/ProviderStatusTable.tsx:54 | each counter of a row is the value of the last sample reporting its status, or 0 |
| ProviderStatus.RowCounts | src/components/metrics/ProviderStatusTable.tsx:54 | a row's counter for a tracked status is the dashboard summary's counter for it |
| ProviderStatus.TotalIsSum | src/components/metrics/ProviderStatusTable.tsx:55 | unless some status is literally `total`, a row's total is the sum of all its samples' values, repeats and unknown statuses included |
| ProviderStatus.StepConsistent | src/components/metrics/ProviderStatusTable.tsx:53-56 | a step with a non-negative value and a status other than `total` keeps the counters within the total and the rate equal to success over total |
| ProviderStatus.TableConsistent | src/components/metrics/ProviderStatusTable.tsx:35-59 | with non-negative values and no `total` status, every row's counters fit within its total, and its success rate is between 0 and 100 |
| ProviderStatus.VisibleRows | src/components/metrics/ProviderStatusTable.tsx:62-66 | the rows shown are sorted by total, highest first; a row is shown exactly when it is in the table and its provider contains the term, ignoring ASCII case |
| ProviderStatus.VisibleEmptyTerm | src/components/metrics/ProviderStatusTable.tsx:64-66 | an empty term hides no row |
| ProviderStatus.Visible | src/components/metrics/ProviderStatusTable.tsx:62-66 | computes the rows sorted by total and filtered by the term; stated by `VisibleRows` and `VisibleEmptyTerm` |
| HostnameStats.HostRows | src/components/metrics/HostnameStatsTable.tsx:28-34 | the rows are sorted by count, highest first, and are exactly the hostname samples as rows, one per sample, none merged or lost |
| HostnameStats.HostStats | src/components/metrics/HostnameStatsTable.tsx:40-43 | each displayed row keeps its row's host and count, and its percentage is its count's share of the total |
| HostnameStats.TotalIsSum | src/components/metrics/HostnameStatsTable.tsx:37 | the total of the ranked rows is the sum of all hostname samples' values |
| HostnameStats.SharesAddUp | src/components/metrics/HostnameStatsTable.tsx:40-43 | when there are requests at all, the percentages add up to exactly 100 |
| HostnameStats.HostRowsStable | src/components/metrics/HostnameStatsTable.tsx:28-34 | rows with equal counts appear in the order of their samples, since the array sort is stable |
| HostnameStats.RowsCoverHosts | src/components/metrics/HostnameStatsTable.tsx:28-34 | the table has at least as many rows as the overview counts distinct hosts |
| MediaWatch.AddAttemptEffect | src/components/metrics/MediaWatchTable.tsx:68-92 | recording watches keeps one attempt per provider in order of first appearance, appending a new provider at the end; it raises the summed count by the watches, and the summed successes by them exactly on success; it keeps every attempt's count equal to its successes plus failures; and it leaves the attempt of every other provider, at its place, as it was |
| MediaWatch.AddAttemptCredits | src/components/metrics/MediaWatchTable.tsx:68-92 | the watches go to the attempt `find` returns for the sample's provider, and to no other. That attempt's count grows by the watches, and its success or failure counter grows by them according to the outcome. Its `success` flag is kept, or is the outcome when the attempt is new. Every other provider's attempt is unchanged |
| MediaWatch.AddAttemptTarget | src/components/metrics/MediaWatchTable.tsx:69-91 | the sample's provider has an attempt afterwards, grown from its earlier one (or from zero) by exactly the watches, with the flag of its first sample |
| MediaWatch.AddAttemptOther | src/components/metrics/MediaWatchTable.tsx:69-91 | `find` for any other provider returns the same attempt as before |
| MediaWatch.AddAttemptFinds | src/components/metrics/MediaWatchTable.tsx:69-71 | `find` on the updated attempts finds what it found before; an unfound provider is found only if it is the one pushed at the end |
| MediaWatch.AddAttempt | src/components/metrics/MediaWatchTable.tsx:68-92 | computes how one sample updates a row's attempts; stated by `AddAttemptEffect`, `AddAttemptCredits` and `AttemptProviders` |
| MediaWatch.MediaStep | src/components/metrics/MediaWatchTable.tsx:51-104 | computes one sample's effect on a title's row; stated by `StepWellFormed`, `RunTitle`, `RunTotal` and, per provider, `RunCredits` |
| MediaWatch.MediaTable | src/components/metrics/MediaWatchTable.tsx:48-107 | computes the per-title reduction of the watch samples; stated by `RowOfTitle`, `RowCredits` and `TableWellFormed` |
| MediaWatch.StepWellFormed | src/components/metrics/MediaWatchTable.tsx:51-104 | one sample keeps a row well formed: balanced attempts, distinct providers, total equal to the attempts' counts, and rate equal to successes over total |
| MediaWatch.TableWellFormed | src/components/metrics/MediaWatchTable.tsx:48-107 | every row of the table is well formed |
| MediaWatch.RunTitle | src/components/metrics/MediaWatchTable.tsx:52-66 | a row is labelled with the title and id of its first sample; later titles are ignored |
| MediaWatch.RunTotal | src/components/metrics/MediaWatchTable.tsx:94 | a row's total is the sum of its samples' values |
| MediaWatch.RowOfTitle | src/components/metrics/MediaWatchTable.tsx:48-107 | an id has a row exactly when it has watch samples; the row carries the first sample's title and the id, and its total is the sum of the id's samples |
| MediaWatch.TotalsMatchOverview | src/components/metrics/MediaWatchTable.tsx:94 | the rows' totals add up to the dashboard's total of watch requests |
| MediaWatch.AttemptProviders | src/components/metrics/MediaWatchTable.tsx:68-92 | a row's attempts name each provider of its samples once, in order of first appearance |
| MediaWatch.RunCredits | src/components/metrics/MediaWatchTable.tsx:50-104 | in the row a run of samples builds, each provider has an attempt exactly when it has samples. The attempt's `success` is the outcome of that provider's first sample. Its count is the sum of that provider's watches, and its success and failure counters are the sums over its successful and its failed samples |
| MediaWatch.CreditsStep | src/components/metrics/MediaWatchTable.tsx:68-92 | one more sample keeps every provider credited with exactly its own samples, whichever provider reported it |
| MediaWatch.RowCredits | src/components/metrics/MediaWatchTable.tsx:48-107 | in every row of the table, each provider's attempt is credited with exactly that provider's samples for the title |
| MediaWatch.StepSane | src/components/metrics/MediaWatchTable.tsx:51-104 | a non-negative sample keeps a row well formed, with non-negative success and failure counters |
| MediaWatch.RateBounded | src/components/metrics/MediaWatchTable.tsx:96-102 | with non-negative values, every row's success rate is between 0 and 100 |
| MediaWatch.VisibleSorted | src/components/metrics/MediaWatchTable.tsx:110-111 | the rows shown are sorted by total, highest first, with or without a term |
| MediaWatch.VisibleSearch | src/components/metrics/MediaWatchTable.tsx:112-128 | with a term, a row is shown exactly when it is in the table and its title, or a provider with a success, contains the term, ignoring ASCII case |
| MediaWatch.VisibleTop | src/components/metrics/MediaWatchTable.tsx:129-130 | without a term, the twenty rows with the highest totals are shown |
| MediaWatch.Visible | src/components/metrics/MediaWatchTable.tsx:110-130 | computes the rows sorted by total, filtered by the term, and cut to twenty without a term; stated by `VisibleSorted`, `VisibleSearch` and `VisibleTop` |
| RawViewer.StripProtocol | src/components/metrics/RawMetricsViewer.tsx:42 | exactly one leading `https://` or `http://` is removed, and a URL without one is left as it is |
| RawViewer.HostOf | src/components/metrics/RawMetricsViewer.tsx:42 | the host never contains `/` |
| RawViewer.HostOfUrl | src/components/metrics/RawMetricsViewer.tsx:42 | for a URL built from a protocol, a host and a path, the host is recovered |
| RawViewer.DomainShape | src/components/metrics/RawMetricsViewer.tsx:37-55 | the domain is never empty and contains neither `.` nor `/` |
| RawViewer.DomainFromUrl | src/components/metrics/RawMetricsViewer.tsx:37-55 | computes the domain: `metrics` for an empty URL, else the second-to-last dot-separated label of the host; stated by `DomainShape`, `DomainOfHost` and the examples |
| RawViewer.DomainOfHost | src/components/metrics/RawMetricsViewer.tsx:45-50 | for a host of two or more dot-separated labels, the domain is the second-to-last label when that label is non-empty |
| RawViewer.ExampleSubdomain | src/components/metrics/RawMetricsViewer.tsx:47-50 | `https://server.demo.com/metrics` gives `demo` |
| RawViewer.ExampleSingleLabel | src/components/metrics/RawMetricsViewer.tsx:50 | a host with a single label falls back to `metrics` |
| RawViewer.DownloadName | src/components/metrics/RawMetricsViewer.tsx:63-69 | the file name starts with the domain and `-metrics-`, ends in `.txt`, and is longer than the fixed parts |
| RawViewer.DownloadNameOf | src/components/metrics/RawMetricsViewer.tsx:66-69 | for an ISO timestamp `dateTtime`, the name carries the domain and exactly the date |
| Strings.Trim | src/lib/metrics.ts:8 | the result is a slice of the text with only white space before and after it, it neither starts nor ends with white space, and it is empty exactly when the text is all white space |
| Strings.TrimIdempotent | src/lib/metrics.ts:8 | trimming twice is trimming once |
| Strings.SplitPieces | src/lib/metrics.ts:16 | no piece of a split contains the separator |
| Strings.JoinSplit | src/lib/metrics.ts:19 | joining the pieces of a split with the same separator gives back the text |
| Strings.SplitJoin | src/components/metrics/RawMetricsViewer.tsx:45 | splitting a join of separator-free pieces gives back the pieces |
| Strings.RemoveAll | src/lib/metrics.ts:57 | the result has no quote, is no longer than the input, and is the input when the input has no quote |
| Strings.IncludesEmpty | src/components/metrics/ProviderStatusTable.tsx:65 | every text includes the empty term |
| Seqs.Filter | src/lib/metrics.ts:83-88 | the result keeps exactly the elements that pass, and no more elements than the input |
| Seqs.FilterAppend | src/lib/metrics.ts:83-88 | filtering distributes over concatenation, so order is preserved |
| Seqs.FilterSorted | src/components/metrics/ProviderStatusTable.tsx:62-66 | filtering a sorted list leaves it sorted |
| Seqs.SortDesc | src/components/metrics/HostnameStatsTable.tsx:34 | the result is non-increasing in the key and is a permutation of the input |
| Seqs.SortDescStable | src/components/metrics/HostnameStatsTable.tsx:34 | elements with equal keys keep their input order |
| Seqs.TakeSortedDominates | src/pages/Dashboard.tsx:101-102 | every element cut off after sorting has a key no greater than any element kept |
| Seqs.FindIndex | src/components/metrics/MediaWatchTable.tsx:69-71 | `find` returns the first element that passes, or none when no element passes |
| Seqs.FindIndexFilter | src/pages/Dashboard.tsx:298 | the first element `find` returns is the head of the filter by the same test |
| Seqs.DedupSize | src/pages/Dashboard.tsx:287-291 | a `Set`'s size is the length of the list without repeats |
| Seqs.AccumulateLastWins | src/pages/Dashboard.tsx:236-239 | a field that each step assigns from matching elements ends as the last matching element's contribution, or its initial value |
| Seqs.AccumulateSum | src/components/metrics/MediaWatchTable.tsx:94 | a measure that each step raises by the element's weight ends as the sum of the weights |
| Assoc.Put | src/lib/metrics.ts:57 | after `labels[key] = value` the key reads back the value; a present key keeps its place and a new key is appended |
| Assoc.PutSumValues | src/pages/Dashboard.tsx:89 | overwriting one entry changes a sum over the values by the difference at that entry |
| Assoc.GroupGet | src/pages/Dashboard.tsx:76-92 | a key's entry in a per-key reduction is the reduction of exactly the elements with that key, in order |
| Assoc.GroupKeys | src/pages/Dashboard.tsx:76-92 | a key has an entry exactly when some element has it, and the keys are the elements' keys without repeats, in order of first appearance |
| Assoc.GroupKeyOrder | src/pages/Dashboard.tsx:76-92 | the keys of a per-key reduction are the keys met, each once, in order of first appearance |
| Assoc.GroupDistinct | src/pages/Dashboard.tsx:76-92 | no key has two entries |
| Assoc.GroupSum | src/components/metrics/MediaWatchTable.tsx:94 | when every element has a key and steps add weights, the entries' measures add up to the total weight |

## Left out

- Rendering, React state and hooks, fetching, clipboard and toast calls, `console.log` and the `try`/`catch` in `getDomainFromUrl`, which no modelled operation can trigger: the model has no I/O or UI.
- `toFixed` and the other digit formatting (`formatNumber`'s digits, `eventLoopLag`, the chart's `parseFloat(toFixed(1))`): `Numbers.FormatNumber` returns the unit and the scaled value, not the rounded text.
- Floating point: values are exact reals, so rounding, `-0`, overflow to `Infinity` and `NaN` in comparators are not modelled.
- Numbers.Percent: gives 0 where JavaScript's division by zero gives `NaN` or `Infinity`. So do the success rates, failure rates and shares built on it.
- Dashboard.AvgMs: a route without a count averages 0, where JavaScript would produce `NaN` or `Infinity`.
- Numbers.ParseNum: reads only what the value tokens can hold (digits, `.` and `-`), as an exact decimal. Exponents, `Infinity` and leading white space cannot reach it.
- Strings.ToLower: lower-cases ASCII letters only; JavaScript's full Unicode case mapping is not modelled.
- Object key order: JavaScript lists integer-like keys before the others. The model keeps every key in order of first assignment, which differs for providers, routes, title ids or label keys (`Exposition.ParseLabels`) that look like integers.
- Prototype keys: a provider or title id such as `constructor` or `__proto__`, which behaves differently on a plain object, is treated as an ordinary key. So is a label key (`Exposition.ParseLabels`): in JavaScript `labels["__proto__"] = "x"` goes through the prototype setter and stores nothing, so `m{__proto__="x"} 1` gets an empty label map, while the model keeps the pair `("__proto__", "x")`.
- ProviderStatus.StatsStep: a sample whose status is the literal field name `provider` would overwrite the row's provider with a number. It is not modelled; that status is treated as untracked. A status `total` or `successRate` is modelled.
- The clock: `new Date()` is replaced by an ISO timestamp parameter of `RawViewer.DownloadName`.
- The other components (navigation, layout, forms, charts) draw what the modelled reductions compute and are not part of this model.

## Findings

| source | as written | input that shows it | evidently intended | confidence | as-written member | corrected member |
|---|---|---|---|---|---|---|
| src/lib/metrics.ts:15-21 | `# HELP` reads the name from `parts[1]` and the help from `parts.slice(2)`, but `parts[0]` is `#` and `parts[1]` is `HELP` | `# HELP up Whether up` records name `HELP` and help `up Whether up` | name `parts[2]`, help `parts.slice(3)` | not executed | Exposition.HelpAsWrittenMisreads | Exposition.HelpDirectiveReads |
| src/lib/metrics.ts:22-28 | `# TYPE` reads the name from `parts[1]` and the type from `parts[2]` | `# TYPE up gauge` records name `TYPE` and type `up` | name `parts[2]`, type `parts[3]` | not executed | Exposition.TypeAsWrittenMisreads | Exposition.TypeDirectiveReads |
| src/lib/metrics.ts:55-57 | a label is split on every `=` and only the first two parts are kept, so a value holding `=` is cut | `{a="b=c"}` gives `a` the value `b` | the value is everything between the quotes | not executed | Exposition.EntryAsWrittenCutsValue | Exposition.SingleLabel |

The sample lines' own names are unaffected by the first two findings: a sample's name comes from its own line. But the `help` and `type` the samples carry are wrong as written. `Exposition.ParsePrometheusMetrics` follows the source's readings; `Exposition.ParseIntended` is the same pass with the corrected readings, and `Exposition.ParseReadingsAgree` shows the two agree on every text without directives and without `=` in label values.
