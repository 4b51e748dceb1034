# Latency monitor: a Dafny model of its sample store and data logic

The application probes a roster of exchange servers and keeps the results in a
**latency sample store**. The store holds the latest sample per server id, a
history per id capped at 2000 samples, and a `running` flag. Two producers feed
it through one commit rule: set `latest[id]`, push onto `history[id]`, and drop
the oldest entry once the list holds more than 2000.

- The **polling round** turns one probe outcome per roster server into a sample
  stamped with the round's time.
- The **RIPE Atlas callback** stores a payload under the first roster server
  whose host occurs in the payload's target.

Around the store sit pure pieces of logic, each modelled here:

- the history query route, which filters one server's history to an inclusive
  time window;
- the latency colour bands;
- the globe's server filter, points, pairwise arcs, topology classes and the
  time window it asks for;
- the control panel's filter handlers;
- the metrics panel's aggregation, colour classes, uptime text and status line;
- the chart's CSV export and file name.

Modules, one per source file, plus five shared ones:

| module | file | models |
|---|---|---|
| `Options` | options.dfy | `Option` |
| `JsMath` | jsmath.dfy | `Math.round`; truncating `%` |
| `Text` | text.dfy | integer printing and parsing; `split`, `join` and `includes` on strings |
| `Seqs` | seqs.dfy | `Array.prototype.filter`; order-preserving subsequence |
| `Samples` | samples.dfy | the server and sample records |
| `LatencyWorker` | latency_worker.dfy | `lib/latencyWorker.ts`: class `WorkerState` and the pure store functions its methods are proved against |
| `HistoryRoute` | history_route.dfy | `app/api/latency/history/route.ts` |
| `Utils` | utils.dfy | `lib/utils.ts` |
| `GlobeClient` | globe_client.dfy | `components/GlobeClient.tsx` |
| `ControlPanel` | control_panel.dfy | `components/ControlPanel.tsx` |
| `PerformanceMetrics` | performance_metrics.dfy | `components/PerformanceMetrics.tsx` |
| `TimeSeriesChart` | time_series_chart.dfy | `components/TimeSeriesChart.tsx` |

Representation choices:

- Timestamps are integers: milliseconds since the epoch.
- Probe rtts are integers. The Atlas rtt is a real, rounded by `JsMath.Round`.
- The TCP probe is an input: a `ProbeOutcome` per roster server, `Connected(rtt)`
  or `Failed(message)`.
- The clock is an input too: `now`, `receivedAt`, `seconds`.
- A history query bound is `Unset` (missing or empty), `At(ms)`, or
  `Unparsable`. `Unparsable` stands for a string whose parsed time is NaN, so
  every comparison with it is false.

## Model

| member | source | states |
|---|---|---|
| LatencyWorker.PushCapped | lib/latencyWorker.ts:78-80 | the new sample is last; below capacity nothing is dropped; at capacity exactly the oldest entry goes and the rest keep their order; the length stays within 2000 |
| LatencyWorker.CommitTo | lib/latencyWorker.ts:77-80 | `latest[id]` becomes the sample; `history[id]` becomes the capped push of the old history, empty if there was none |
| LatencyWorker.CommitOther | lib/latencyWorker.ts:77-80 | a commit leaves the latest sample and the history of every other id as they were |
| LatencyWorker.CommitLeavesRest | lib/latencyWorker.ts:77-80 | both maps after a commit agree with the old ones once the committed id is removed |
| LatencyWorker.CommitKeepsInv | lib/latencyWorker.ts:107-110 | a commit of a well-formed roster sample keeps the store invariant: the same ids in `latest` and `history`, only roster ids, histories non-empty, within 2000, of that id, with `latest[id]` as the last entry |
| LatencyWorker.CommitCommutes | lib/latencyWorker.ts:95-126 | commits for two different ids give the same store in either order |
| LatencyWorker.PushKeepsTimeOrder | lib/latencyWorker.ts:94-110 | pushing a sample no older than the history keeps the history ordered by time |
| LatencyWorker.RoundSample | lib/latencyWorker.ts:97-119 | the sample has the server's id, host and port and the round's time; a connection gives 'ok' with its rtt; a failure gives a null rtt, 'timeout' exactly when the message is 'timeout', otherwise 'error' |
| LatencyWorker.RoundSamples | lib/latencyWorker.ts:95-125 | one sample per roster server, in roster order, each with its server's id, the round's time and a well-formed status |
| LatencyWorker.CommitAll | lib/latencyWorker.ts:95-126 | no contract of its own: the commit rule applied to each sample in turn; what it does is stated by the `CommitAll` lemmas in the next rows |
| LatencyWorker.CommitAllStep | lib/latencyWorker.ts:96-126 | committing one more sample is the shorter run of commits followed by that sample's commit |
| LatencyWorker.CommitAllKeeps | lib/latencyWorker.ts:107-110 | no commit removes an entry: every id with a latest sample or a history keeps one |
| LatencyWorker.CommitAllCovers | lib/latencyWorker.ts:107-110 | every committed sample's id ends with a latest sample and a history |
| LatencyWorker.Round | lib/latencyWorker.ts:93-127 | after `pollOnce`, every roster server has a latest sample and a history, and every id that had a latest sample still has one |
| LatencyWorker.CommitAllLeavesOthers | lib/latencyWorker.ts:96-126 | a run of commits leaves every id that no sample carries as it was: its latest sample, whether it has a history entry, and that history |
| LatencyWorker.CommitAllStamps | lib/latencyWorker.ts:96-126 | after a run of commits all stamped `t`, every sample's id has a latest sample stamped `t` |
| LatencyWorker.CommitAllEach | lib/latencyWorker.ts:96-126 | with distinct ids, each sample becomes its id's latest and is pushed exactly once onto its history |
| LatencyWorker.CommitAllOrderFree | lib/latencyWorker.ts:95-126 | with distinct ids, any permutation of the samples gives the same store, so the order in which the concurrent probes finish does not matter |
| LatencyWorker.CommitAllKeepsInv | lib/latencyWorker.ts:96-126 | a run of commits of well-formed roster samples keeps the store invariant |
| LatencyWorker.RoundLeavesOthers | lib/latencyWorker.ts:93-127 | a round leaves the latest sample and the history of every id outside the roster unchanged |
| LatencyWorker.RoundStampsAll | lib/latencyWorker.ts:94-126 | after a round, every roster server has a latest sample stamped with the round's time |
| LatencyWorker.RoundCommitsEach | lib/latencyWorker.ts:94-126 | with distinct ids, each server's latest is its own outcome's sample, and its history grew by exactly that sample, capped at 2000 |
| LatencyWorker.RoundKeepsInv | lib/latencyWorker.ts:93-127 | a round over roster servers keeps the store invariant |
| LatencyWorker.Rounds | lib/latencyWorker.ts:129-135 | after at least one round every roster server has a latest sample; no id loses its latest sample |
| LatencyWorker.HistoryLengthAfterRounds | lib/latencyWorker.ts:129-135 | after N rounds a server's history length is its old length plus N, capped at 2000 |
| LatencyWorker.FindFrom | lib/latencyWorker.ts:67 | the first index at or after `from` whose host occurs in a non-empty target, or none when no such index exists |
| LatencyWorker.FindByHost | lib/latencyWorker.ts:67 | `find`: the first roster server whose host occurs in the target; none exactly when no server matches |
| LatencyWorker.AtlasSample | lib/latencyWorker.ts:65-76 | 'ok' with `Math.round(rtt)` exactly when the rtt is a non-zero number; otherwise 'error' with a null rtt; the server's id, host and port; the receive time |
| LatencyWorker.AtlasCommit | lib/latencyWorker.ts:58-85 | with no matching roster host the store is unchanged; otherwise the first matching server's latest sample is the Atlas sample for the payload, and its history is the old one with that sample pushed, capped at 2000 |
| LatencyWorker.AtlasTouchesOnlyMatch | lib/latencyWorker.ts:58-85 | an unmatched payload changes nothing; a matched one sets only the first matching server's entry and leaves every other id unchanged |
| LatencyWorker.WorkerState.constructor | lib/latencyWorker.ts:28-37 | the roster, empty `latest` and `history`, a 5000 ms period, not running; the invariant holds |
| LatencyWorker.WorkerState.Commit | lib/latencyWorker.ts:77-80 | the fields change exactly as `CommitTo` says; `running` is untouched; the invariant is kept for a well-formed roster sample |
| LatencyWorker.WorkerState.PollRound | lib/latencyWorker.ts:93-127 | the loop over the roster leaves the store equal to `Round` of the old store, the servers' samples committed in roster order, and keeps the invariant |
| LatencyWorker.WorkerState.AtlasResult | lib/latencyWorker.ts:58-85 | the store becomes `AtlasCommit` of the old one; it reports a store exactly when some roster host matches |
| LatencyWorker.WorkerState.Start | lib/latencyWorker.ts:47-49 | when already running, nothing changes and it reports false; otherwise it sets `running` and runs one polling round |
| HistoryRoute.Get | app/api/latency/history/route.ts:5-21 | a missing or empty id is a 400 'serverId required'; otherwise the response echoes the id, and its history is an order-preserving subsequence of the stored one holding exactly the samples inside the inclusive window |
| HistoryRoute.QueryCounts | app/api/latency/history/route.ts:16-19 | each in-window sample appears as often as in the stored history; no other sample appears |
| HistoryRoute.UnboundedReturnsAll | app/api/latency/history/route.ts:18 | with both bounds missing, the whole history is returned |
| HistoryRoute.UnknownIdIsEmpty | app/api/latency/history/route.ts:15 | an id that is not a key of the history map gets an empty list, not an error |
| HistoryRoute.SingleInstant | app/api/latency/history/route.ts:16-19 | the window `[t, t]` returns exactly the one sample stamped `t` |
| Utils.LatencyColor | lib/utils.ts:2-7 | gray exactly for null; green below 50; yellow from 50 to below 150; red from 150; always one of the four |
| Utils.LatencyColorMonotone | lib/utils.ts:4-6 | a larger rtt never gets a better band |
| ControlPanel.Toggle | components/ControlPanel.tsx:33-35 | the toggled item's membership flips and every other item's is kept; an absent item is appended at the end; a present one is removed everywhere, the rest keeping their order; removing a present item keeps every other item exactly as many times as it occurred |
| ControlPanel.ToggleTwiceAbsent | components/ControlPanel.tsx:33-35 | toggling an absent item twice gives the list back |
| ControlPanel.ToggleProvider | components/ControlPanel.tsx:32-38 | only `providers` changes, by the toggle |
| ControlPanel.ToggleExchange | components/ControlPanel.tsx:40-46 | only `exchanges` changes, by the toggle |
| ControlPanel.SetLatencyBound | components/ControlPanel.tsx:48-53 | the named bound takes the value; the other bound and both lists are kept |
| ControlPanel.ResetFilters | components/ControlPanel.tsx:55-60 | all four providers, no exchange restriction, range 0 to 1000, whatever was set before |
| GlobeClient.FilterServers | components/GlobeClient.tsx:116-124 | an order-preserving subsequence of the roster holding exactly the servers that pass: provider listed, exchange listed or no exchange filter, and rtt absent or within the range; each passing server appears exactly as many times as in the roster |
| GlobeClient.ResetFilterAdmits | components/GlobeClient.tsx:116-124 | after a reset, a server of a known provider passes exactly when its rtt is absent or within 0 to 1000 |
| GlobeClient.ProviderColor | components/GlobeClient.tsx:126-133 | AWS, GCP and Azure each have their colour; every other provider gets `#8B5CF6`, and only those |
| GlobeClient.BuildPoints | components/GlobeClient.tsx:135-146 | one point per filtered server, in order, with its id, position and provider colour |
| GlobeClient.PairAverage | components/GlobeClient.tsx:184-186 | no average exactly when both rtts are falsy; with both truthy it is `Math.round` of their mean, and so lies between them; with one truthy it is the rounded mean of that rtt and the 9999 penalty |
| GlobeClient.LatencyArcColor | components/GlobeClient.tsx:222 | the latency-mode arc colour equals the `latencyColor` band of the average |
| GlobeClient.RegionOf | components/GlobeClient.tsx:193 | the region is the prefix of the region code up to its first '-', or the whole code, and holds no '-' |
| GlobeClient.TopologyStyle | components/GlobeClient.tsx:190-219 | green exactly for same provider and region; blue for same provider only; orange for same region only; red otherwise |
| GlobeClient.TopologySymmetric | components/GlobeClient.tsx:192-193 | the topology style does not depend on which end is which |
| GlobeClient.MakeArc | components/GlobeClient.tsx:182-240 | the arc runs from the first server to the second; in topology mode it has the topology style; otherwise the latency colour of the pair average, stroke 0.4, altitude 0.15, no dashes |
| GlobeClient.Row | components/GlobeClient.tsx:181 | the inner loop's pairs `(i, k)` for `i < k < j`, in increasing `k` |
| GlobeClient.PairsBefore | components/GlobeClient.tsx:180-181 | the pairs the outer loop has visited after `i` rows: each has its first index below `i` and is a pair `a < b < n` |
| GlobeClient.PairsBeforeLength | components/GlobeClient.tsx:180-181 | the first `i` rows hold `i(2n-i-1)/2` pairs |
| GlobeClient.PairsBeforeComplete | components/GlobeClient.tsx:180-181 | every pair `a < b < n` with `a < i` is visited in the first `i` rows |
| GlobeClient.PairsBeforeOrdered | components/GlobeClient.tsx:180-181 | the loops visit pairs in strictly increasing lexicographic order |
| GlobeClient.PairsExact | components/GlobeClient.tsx:180-181 | the loops visit exactly the pairs `a < b < n`, each once, `n(n-1)/2` in all |
| GlobeClient.ArcCount | components/GlobeClient.tsx:178-183 | `n(n-1)/2` arcs when arcs or topology are shown; none otherwise |
| GlobeClient.ArcForPair | components/GlobeClient.tsx:178-243 | when shown, the pair `a < b` of filtered servers gets its arc |
| GlobeClient.ArcForEachPair | components/GlobeClient.tsx:178-243 | when shown, every pair of filtered servers gets its arc, and every arc joins such a pair |
| GlobeClient.ArcsOfAppend | components/GlobeClient.tsx:180-240 | the arcs of two runs of pairs are the arcs of the first followed by those of the second |
| GlobeClient.RowDone | components/GlobeClient.tsx:180-241 | appending a finished row to the arcs of the earlier rows gives the arcs of one more row |
| GlobeClient.RowArcs | components/GlobeClient.tsx:181-241 | the inner loop pushes the arc of `(i, j)` for each `j` from `i + 1` up to the end, in order, and nothing else |
| GlobeClient.BuildArcs | components/GlobeClient.tsx:178-243 | the nested loops build exactly the specified arcs: one per visited pair, in visiting order, none when hidden |
| GlobeClient.TimeRangeHours | components/GlobeClient.tsx:255-263 | 24h gives 24, 7d gives 168, 30d gives 720, anything else gives 1 |
| GlobeClient.HistoryWindow | components/GlobeClient.tsx:265-267 | the window ends now and starts the range's hours earlier, in ms |
| GlobeClient.WindowQuery | components/GlobeClient.tsx:265-269 | the query the panel sends succeeds, and returns an order-preserving subsequence of the server's history holding exactly its samples within the selected range |
| PerformanceMetrics.TotalServers | components/PerformanceMetrics.tsx:38 | the roster length, or 0 when it is absent |
| PerformanceMetrics.Mean | components/PerformanceMetrics.tsx:43 | `Math.round(sum / n)`: within one half of the exact mean, a tie going up |
| PerformanceMetrics.FailureRate | components/PerformanceMetrics.tsx:45 | 0 with no servers; otherwise the rate times the server count is the failed count times 100; between 0 and 100 when no more failed than there are servers |
| PerformanceMetrics.Aggregate | components/PerformanceMetrics.tsx:38-45 | total is the roster size; active counts the samples with an rtt and is at most the sample count; the average is 0 when none is active, else the rounded mean of the present rtts; the rate is `FailureRate` of the error and timeout count |
| PerformanceMetrics.RttSumBounds | components/PerformanceMetrics.tsx:43 | bounds on every present rtt bound their sum by the active count |
| PerformanceMetrics.MeanWithin | components/PerformanceMetrics.tsx:43 | a sum of n values in `[lo, hi]`, divided by n, stays in `[lo, hi]` |
| PerformanceMetrics.AvgWithin | components/PerformanceMetrics.tsx:42-44 | with some rtt present, the average lies within any bounds holding every rtt, so between the least and greatest |
| PerformanceMetrics.ActivePlusFailed | components/PerformanceMetrics.tsx:40-41 | with well-formed samples, active plus failed is the number of samples |
| PerformanceMetrics.FailureRateBounds | components/PerformanceMetrics.tsx:45 | the rate is between 0 and 100 when no more samples failed than there are servers |
| PerformanceMetrics.Band | components/PerformanceMetrics.tsx:71-87 | exactly one of green, yellow, red: green below the first threshold, yellow below the second, red from it |
| PerformanceMetrics.LatencyClass | components/PerformanceMetrics.tsx:71-75 | the band with thresholds 50 and 100 |
| PerformanceMetrics.FailureRateClass | components/PerformanceMetrics.tsx:77-81 | the band with thresholds 1 and 3 |
| PerformanceMetrics.UsageClass | components/PerformanceMetrics.tsx:83-87 | the band with thresholds 50 and 80 |
| PerformanceMetrics.BandMonotone | components/PerformanceMetrics.tsx:71-87 | a larger figure never gets a better class |
| PerformanceMetrics.UptimeParts | components/PerformanceMetrics.tsx:89-91 | for non-negative seconds, minutes are below 60 and `3600h + 60m <= s < 3600h + 60m + 60` |
| PerformanceMetrics.FormatUptime | components/PerformanceMetrics.tsx:89-93 | the text is two space-separated words: the printed hours followed by 'h', then the printed minutes followed by 'm' |
| PerformanceMetrics.UptimeRoundTrip | components/PerformanceMetrics.tsx:89-93 | the `Xh Ym` text reads back as exactly the hours and minutes it was made from |
| PerformanceMetrics.StatusOf | components/PerformanceMetrics.tsx:204-212 | Healthy exactly when some server is active and the rate is below 10; Degraded when active with rate 10 or more; Critical exactly when none is active |
| PerformanceMetrics.NoLiveSampleIsCritical | components/PerformanceMetrics.tsx:204-212 | a snapshot with no rtt at all is Critical |
| PerformanceMetrics.AllLiveIsHealthy | components/PerformanceMetrics.tsx:204-212 | a non-empty snapshot in which every sample is well formed with an rtt is Healthy |
| TimeSeriesChart.RttField | components/TimeSeriesChart.tsx:10 | empty exactly when there is no rtt; never holds a comma or a line break |
| TimeSeriesChart.Csv | components/TimeSeriesChart.tsx:9-11 | the file always starts with the header; empty data gives exactly the header |
| TimeSeriesChart.CsvRow | components/TimeSeriesChart.tsx:10 | for any sample, the line is the timestamp, a comma, the rtt field, a comma and the status, at the stated positions; a clean sample's line has no line break and splits at its commas into exactly those three fields |
| TimeSeriesChart.CsvBody | components/TimeSeriesChart.tsx:10 | the body is empty exactly when there is no data |
| TimeSeriesChart.BodyLines | components/TimeSeriesChart.tsx:10 | the body of non-empty clean data splits into exactly one line per sample, in order, with no trailing break |
| TimeSeriesChart.RowRoundTrip | components/TimeSeriesChart.tsx:10 | a clean sample's line has no line break and reads back as the sample |
| TimeSeriesChart.CsvRoundTrip | components/TimeSeriesChart.tsx:9-11 | reading back an export of clean samples gives exactly those samples, in order |
| TimeSeriesChart.DownloadName | components/TimeSeriesChart.tsx:18 | the name is the server id followed by `_latency_history.csv` |
| TimeSeriesChart.DownloadNameInjective | components/TimeSeriesChart.tsx:18 | different server ids give different file names |
| JsMath.Round | lib/latencyWorker.ts:74 | `Math.round`: the nearest integer, a tie going up |
| JsMath.Rem | components/PerformanceMetrics.tsx:91 | JavaScript's `%` for a positive divisor: the remainder has the sign of the dividend, is smaller than the divisor in magnitude, and the dividend is the truncated quotient times the divisor plus it |
| Text.IncludesIff | lib/latencyWorker.ts:67 | `includes` holds exactly when the needle occurs at some position |
| Text.SplitFirst | components/GlobeClient.tsx:193 | the first piece of a split is the text up to the first separator, or all of it |
| Text.IntRoundTrip | components/TimeSeriesChart.tsx:10 | a printed integer parses back to itself |
| Text.SplitJoin | components/TimeSeriesChart.tsx:10 | splitting a join of separator-free parts gives the parts back |
| Seqs.FilterIsSubsequence | app/api/latency/history/route.ts:16 | `filter` keeps an order-preserving subsequence |
| Seqs.FilterCounts | app/api/latency/history/route.ts:16 | `filter` keeps each passing value as often as it occurs, and drops every other value |

## Left out

- The TCP probe (lib/fetchLatency.ts) is I/O. `PollRound` takes its outcomes as input, so the 4000 ms probe timeout does not appear in the model.
- The RIPE Atlas WebSocket (lib/ripeAtlasWorker.ts) is I/O. `AtlasResult` takes the payload as input.
- The `RIPE_ATLAS_KEY` check that decides whether the Atlas stream starts is left out, for the same reason.
- `setInterval` scheduling is left out. `Rounds` models successive rounds.
- The `getWorker` singleton, `process.env` and `loadServers` are left out. The constructor takes the roster.
- LatencyWorker.WorkerState.PollRound: commits in roster order, not in the order the concurrent probes finish. `CommitAllOrderFree` shows that, for distinct ids, every order of the same samples gives the same store.
- LatencyWorker.AtlasSample: the rtt is an exact real, so NaN (which is falsy and gives 'error') cannot occur. A `target` that is not a string is modelled as absent.
- The payload's other fields (`measurement_id`, `timestamp`) are left out: the callback does not use them.
- The stream route and the thin JSON routes (`latency`, `snapshot`, `servers`) are transport with no logic.
- HistoryRoute.Get: timestamps are integers. The ISO-8601 parsing and printing of `new Date(...)` and `toISOString` are not modelled.
- LatencyWorker.CommitTo: `latest` and `history` are Dafny maps, so every id starts with no entry. In the source they are plain objects (lib/latencyWorker.ts:32-33), and an id that names an inherited property (`constructor`, `toString`, `valueOf`, `hasOwnProperty`, `__proto__`) behaves differently. For such an id, `history[id] || []` yields the inherited value, and the `.push` at lines 79 and 109 throws. In `pollOnce`, the catch (lines 111-122) sets an error sample and then throws again at line 122, outside any `try`, so `Promise.all` rejects, `start` never reaches `setInterval`, and polling stops with `running` still true. On the Atlas path, the error is swallowed at lines 82-84 and `latest` is left updated with no history push. The model assumes roster ids are not such names; its clean, invariant-keeping commit does not capture this.
- HistoryRoute.Get: the history is a Dafny map, so an id that is not a key gets an empty list. In the source, `worker.history` is a plain object (lib/latencyWorker.ts:33), so `history[serverId] || []` also finds inherited properties. An id such as `constructor` or `__proto__` makes `filter` throw and the route answer 500. The model does not capture that.
- GlobeClient.HistoryWindow: the model reads the clock once, so the window is exactly the range's hours wide. The source reads it twice (GlobeClient.tsx:266-267), so `from` can be a few milliseconds later than `to` minus the range, and the window a little shorter.
- GlobeClient.PointLabel and GlobeClient.ArcLabel: the tooltip texts are modelled as the source builds them, but no contract states anything about them.
- GlobeClient.WindowQuery assumes the query string carries the id unchanged. The source does not URL-encode it.
- The globe's rendering, `EventSource`/`fetch` plumbing and toggle buttons are left out: they are user-interface wiring.
- The heatmap weights and the cloud-region rings are left out: they are display-only, floating-point decorations.
- PerformanceMetrics.Aggregate: `Object.values(latest)` is taken as a sequence, and `failureRate` is an exact real rather than a double.
- The simulated memory, CPU and network figures and the wall-clock uptime use `Math.random()` and the clock, so they are left out. `FormatUptime` takes the seconds as input.
- `toFixed(1)` and `toLocaleTimeString` display formatting is left out.
- The chart's recharts data mapping and the Blob/anchor download are rendering and browser I/O.
- Text.IntToString: prints integers only, as JavaScript does below 1e21. Exponent notation for larger magnitudes is not modelled.
