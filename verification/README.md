# SentinelShield process monitor, scanner and traffic chart: a Dafny model

SentinelShield is a single-page dashboard that simulates an Android security
monitor. This project models three of its panels, each as pure functions
over immutable records, and proves what their handlers promise.

- **Process monitor** (`components/ProcessMonitor.tsx`). The monitor does the following:
  - generates a table of 25 processes, and perturbs their CPU and memory every two seconds unless paused;
  - sorts by a clickable column;
  - filters by a search box;
  - kills rows by pid;
  - opens a detail modal with a rule-based risk assessment;
  - tags each row as a threat, a user application or a system process.
- **Deep scanner** (`components/Scanner.tsx`). A button starts a 20-step scan. Each step advances the progress bar by 5%. The scan reports a critical finding at step 10 and a warning at step 15.
- **Traffic chart** (`components/NetworkPanel.tsx`). One random sample arrives per second. The chart keeps the 20 most recent samples.

Every `Math.random()` result is an argument of type `Draws.Unit`, a real in [0, 1). The clock readings (`Date.now()`, the formatted times) are arguments too. Each timer firing is an explicit `Tick` the caller applies.

CPU load is kept as an integer count of tenths of a percent (`cpuTenths`). The source always rounds it with `toFixed(1)`. For non-negative values `toFixed` rounds a half-way value up, which the model writes as `floor(10x + 0.5)`. Negative values would round half away from zero, but the tick clamps every negative load to 0, so this never shows.

Modules:

| file | module | contents |
|---|---|---|
| `types.dfy` | `Types` | the records of `types.ts` |
| `draws.dfy` | `Draws` | random draws, `Math.floor(r * n)`, `toFixed(1)` |
| `text.dfy` | `Text` | `startsWith`, `includes`, `toLowerCase`, decimal rendering |
| `process_table.dfy` | `ProcessTable` | generator, tick, filter, search |
| `process_sort.dfy` | `ProcessSort` | header state machine, comparator, stable sort |
| `process_details.dfy` | `ProcessDetails` | row-click detail derivation, risk score, row classifier |
| `process_monitor.dfy` | `ProcessMonitor` | the panel's state and its user actions |
| `scanner.dfy` | `Scanner` | the scan state machine |
| `network_panel.dfy` | `NetworkPanel` | the traffic window |

The memory step on each tick is `Math.floor((Math.random() - 0.5) * 10)`, which lies in [-5, 4] rather than being symmetric about zero (`ProcessTable.MemoryDelta`).

The code behaves in three ways that are easy to miss, and the model keeps all three:
- The effect that generates the table lists the pause flag as a dependency. Pressing pause or resume therefore also replaces the table with a freshly generated one (`ProcessMonitor.TogglePause`).
- The detail modal shows a snapshot taken at click time. Later ticks do not update it (`ProcessMonitor.Tick`).
- `startScan` does not reset the status line. The text of the previous scan stays until the first step (`Scanner.StartScan`).

## Model

| member | source | states |
|---|---|---|
| Text.ContainsIffOccurs | components/ProcessMonitor.tsx:87-88 | `includes` as modelled holds exactly when the pattern occurs at some offset of the string |
| Text.ToLowerIdempotent | components/ProcessMonitor.tsx:145 | lower-casing leaves no capital letter behind, so lower-casing twice equals lower-casing once |
| Text.NatToStringRoundTrip | components/ProcessMonitor.tsx:146 | reading the decimal rendering of a pid back gives the pid |
| Text.NatToStringInjective | components/ProcessMonitor.tsx:146 | distinct pids render as distinct strings |
| Draws.Pick | components/ProcessMonitor.tsx:43 | `Math.floor(r * n)` is an index below `n` and is the integer part of `r * n` |
| Draws.ToFixed1 | components/ProcessMonitor.tsx:45 | one-decimal rounding of a non-negative value lands within half a tenth of it |
| ProcessTable.RowName | components/ProcessMonitor.tsx:44 | the row name is the pool name at index `i mod 17`; the `process_i` fallback never applies because no pool name is empty |
| ProcessTable.GenerateRow | components/ProcessMonitor.tsx:42-49 | row `i` has pid in [1000+50i, 1000+50i+20), the pool name, hidden iff `i = 15`, CPU at most 15% on every fifth row and 2% elsewhere, memory in [10, 310) |
| ProcessTable.Generate | components/ProcessMonitor.tsx:41-50 | the generator yields exactly 25 rows; row `i` is the row `GenerateRow` builds from the `i`-th draws, so its pid lies in its band of 20, its name is the pool name, it is hidden iff `i = 15`, its CPU is at most 15% on every fifth row and 2% elsewhere, and its memory lies in [10, 310) |
| ProcessTable.GeneratedPidsIncrease | components/ProcessMonitor.tsx:43 | generated pids strictly increase with the row index, so they are distinct |
| ProcessTable.GeneratedHiddenRow | components/ProcessMonitor.tsx:32-47 | exactly one generated row is hidden, row 15, and its name is `com.unknown.miner` |
| ProcessTable.GeneratedClamped | components/ProcessMonitor.tsx:41-50 | a fresh table already satisfies the tick's clamps |
| ProcessTable.MemoryDelta | components/ProcessMonitor.tsx:60 | the memory step lies in [-5, 4] MB |
| ProcessTable.TickRow | components/ProcessMonitor.tsx:57-61 | a tick keeps pid, name, hidden flag and status. CPU stays non-negative, falls by at most one percent, and rises by at most one percent unless clamped to 0. Memory stays at least 10 MB, falls by at most 5 MB, and rises by at most 4 MB unless clamped to 10 |
| ProcessTable.Tick | components/ProcessMonitor.tsx:55-63 | a paused table is unchanged. Otherwise the same rows remain in the same order, and every row is clamped afterwards. Each new row is `TickRow` of the old row at that position with its own draws, so CPU moves by at most 1% and memory by [-5, 4] MB before clamping |
| ProcessTable.RunTicks | components/ProcessMonitor.tsx:55-63 | any series of firings keeps the rows and their order. After any unpaused firing, every CPU is at least 0 and every memory at least 10 |
| ProcessTable.WhereSpec | components/ProcessMonitor.tsx:144-147 | `filter` keeps exactly the accepted rows, each as often as before and in the original order |
| ProcessTable.Search | components/ProcessMonitor.tsx:144-147 | the search result is an order-preserving subsequence. A row is kept iff its lower-cased name contains the lower-cased query or its decimal pid contains the query, and a kept row appears exactly as often as in the table |
| ProcessTable.SearchEmptyShowsAll | components/ProcessMonitor.tsx:144-147 | an empty query keeps every row |
| ProcessTable.SearchFindsPid | components/ProcessMonitor.tsx:146 | typing any part of a row's decimal pid keeps that row |
| ProcessSort.HandleSort | components/ProcessMonitor.tsx:68-75 | re-clicking the current column flips the direction. Clicking another column selects it with direction descending |
| ProcessSort.HandleSortTwice | components/ProcessMonitor.tsx:68-75 | two clicks on the current column restore the original sort state |
| ProcessSort.LexCompare | components/ProcessMonitor.tsx:153-156 | the name comparison is three-valued and is zero exactly on equal names |
| ProcessSort.LexCompareAntisymmetric | components/ProcessMonitor.tsx:153-156 | swapping the names negates the name comparison |
| ProcessSort.LexCompareTransitive | components/ProcessMonitor.tsx:153-156 | the name comparison is transitive |
| ProcessSort.CompareDescNegatesAsc | components/ProcessMonitor.tsx:149-162 | the descending comparator is the ascending one negated, for every column |
| ProcessSort.CompareAntisymmetric | components/ProcessMonitor.tsx:149-162 | swapping the arguments negates the comparator |
| ProcessSort.CompareTransitive | components/ProcessMonitor.tsx:149-162 | "not after" under the comparator is transitive, so the comparator is a consistent total preorder |
| ProcessSort.Sort | components/ProcessMonitor.tsx:149-162 | the sorted table is a permutation of its input, ordered under the comparator |
| ProcessSort.SortOrdersNumericColumn | components/ProcessMonitor.tsx:158-161 | on pid, CPU and memory the sorted table is non-decreasing ascending and non-increasing descending |
| ProcessSort.SortIsStable | components/ProcessMonitor.tsx:149 | rows that tie keep their input order, as `Array.prototype.sort` guarantees |
| ProcessSort.SortDescReversesAsc | components/ProcessMonitor.tsx:149-162 | without ties, the descending table is the ascending table reversed |
| ProcessSort.TiedRowsDoNotReverse | components/ProcessMonitor.tsx:149-162 | with a tie, flipping the direction does not reverse the table |
| ProcessDetails.Connections | components/ProcessMonitor.tsx:115-120 | a suspicious, messaging or Play-services row lists two connections; any other row lists none |
| ProcessDetails.Anomalies | components/ProcessMonitor.tsx:122-125 | the rootkit entry appears iff hidden, mining iff CPU > 10%, signature iff the name contains `miner`, suspension iff pid < 2000 and suspended. No anomaly is listed twice, so there are at most four |
| ProcessDetails.RiskScore | components/ProcessMonitor.tsx:127-133 | the capped score lies in [0, 100] |
| ProcessDetails.OpenFiles | components/ProcessMonitor.tsx:97-104 | six handles, the first three `/proc/<pid>/cmdline`, `status`, `maps`; the fourth is the payload library iff the row is suspicious |
| ProcessDetails.Checksum | components/ProcessMonitor.tsx:108 | one lower-case hexadecimal digit per draw |
| ProcessDetails.Derive | components/ProcessMonitor.tsx:85-137 | the apk is the name for dotted names and "System Process" otherwise. The install source is Sideloaded iff suspicious, else Play Store iff a user app. Permissions follow the user-app test. The handles are exactly `OpenFiles`, the connections exactly `Connections`, and the anomalies exactly `Anomalies`, so their contracts apply. The risk score is the capped score of those connections, in [0, 100]. The checksum is one hex digit per draw, 64 in all; the parent pid is in [100, 600), the user comes from the fixed list, and the start time is the clock's |
| ProcessDetails.UnknownSourceIffSideloaded | components/ProcessMonitor.tsx:468 | the install-source text (one of the three labels of line 93) mentions "Unknown", which the modal paints yellow, exactly for a sideloaded package |
| ProcessDetails.AnomalyMessagesDistinct | components/ProcessMonitor.tsx:122-125 | distinct anomalies are reported with distinct messages |
| ProcessDetails.SuspiciousConnectionsHavePort | components/ProcessMonitor.tsx:115-120 | a suspicious row's connections name port 4444 or 5555 |
| ProcessDetails.ServiceConnectionsHaveNoPort | components/ProcessMonitor.tsx:115-120 | the messaging and Play-services connections name neither 4444 nor 5555 |
| ProcessDetails.BackdoorPortIffSuspicious | components/ProcessMonitor.tsx:115-132 | the `+20` connection test fires exactly for suspicious rows |
| ProcessDetails.RiskScoreOfClick | components/ProcessMonitor.tsx:127-133 | the score equals `min(50·hidden + 40·miner + 10·(cpu > 15) + 20·suspicious, 100)` |
| ProcessDetails.BenignRowScoresLow | components/ProcessMonitor.tsx:127-133 | a row that neither hides nor carries the miner tag scores 0, or 10 under heavy CPU |
| ProcessDetails.HiddenRowScoresHigh | components/ProcessMonitor.tsx:127-133 | a hidden row scores at least 70, and a hidden miner scores 100 |
| ProcessDetails.GeneratedMinerScoresMax | components/ProcessMonitor.tsx:127-133 | the planted hidden row of any fresh table scores 100 |
| ProcessDetails.DetailsDependOnRowOnly | components/ProcessMonitor.tsx:108-111 | two clicks on the same row differ only in checksum, parent pid, user and start time |
| ProcessDetails.ProcessTypeInfo | components/ProcessMonitor.tsx:173-183 | a row is a Potential Threat iff suspicious. It is a User Application iff it is no threat and is a `com.`/`org.` package outside `.android.` and `.google.` |
| ProcessDetails.TypeInfoShown | components/ProcessMonitor.tsx:173-183 | the row icon is red and titled "Potential Threat" exactly for suspicious rows, and no other class shares its title |
| ProcessDetails.ThreatIconIffSideloaded | components/ProcessMonitor.tsx:173-176 | the threat icon shows exactly when the modal says the package was sideloaded |
| ProcessDetails.UserApplicationsComeFromPlayStore | components/ProcessMonitor.tsx:177-181 | a row the list calls a user application is one the modal says came from the Play Store |
| ProcessDetails.PlayStoreNeedNotBeUserApplication | components/ProcessMonitor.tsx:177-181 | the converse fails: `net.tor` is a Play Store app to the modal but a system process to the list |
| ProcessMonitor.Mount | components/ProcessMonitor.tsx:20-52 | the panel opens with exactly the freshly generated table of 25 clamped rows, sorted by CPU descending, running, with an empty query and no modal |
| ProcessMonitor.TogglePause | components/ProcessMonitor.tsx:31-66 | the pause button flips the flag and replaces the table with exactly the freshly generated one, 25 clamped rows; nothing else changes |
| ProcessMonitor.Tick | components/ProcessMonitor.tsx:55-63 | a paused panel is unchanged. A tick touches only the table, replaces it with exactly `ProcessTable.Tick` of the old table, keeps its rows, and leaves the modal's snapshot alone |
| ProcessMonitor.SetQuery | components/ProcessMonitor.tsx:235-239 | typing or clearing the search box changes only the query |
| ProcessMonitor.ClickHeader | components/ProcessMonitor.tsx:262-277 | a header click changes only the sort state, as the sort state machine says |
| ProcessMonitor.RowClick | components/ProcessMonitor.tsx:85-137 | a click selects the row and sets the details to exactly those `Derive` gives for that row and those draws, and changes nothing else |
| ProcessMonitor.CloseModal | components/ProcessMonitor.tsx:139-142 | closing clears both the selection and the details, and nothing else |
| ProcessMonitor.Kill | components/ProcessMonitor.tsx:77-83 | a kill removes exactly the rows with that pid and keeps all others, with multiplicity and in order. It closes the modal iff the modal shows that pid, and keeps selection and details consistent |
| ProcessMonitor.Visible | components/ProcessMonitor.tsx:144-162 | the screen shows exactly the table rows matching the query, each as often as the search keeps it, ordered under the current comparator. Rows that tie on the column keep their table order, because the sort is stable |
| ProcessMonitor.EmptyQueryShowsAll | components/ProcessMonitor.tsx:144-162 | with an empty query the screen shows a permutation of the whole table |
| ProcessMonitor.KillIdempotent | components/ProcessMonitor.tsx:77-83 | killing a pid twice equals killing it once |
| ProcessMonitor.KillsCommute | components/ProcessMonitor.tsx:77-83 | two kills leave the same table in either order |
| ProcessMonitor.KilledRowIsGone | components/ProcessMonitor.tsx:77-83 | after a kill no visible row has that pid, whatever the query and sort |
| ProcessMonitor.ClickThenCloseIsClose | components/ProcessMonitor.tsx:85-142 | opening and then closing the modal leaves the panel as a plain close does |
| ProcessMonitor.TerminateFromModal | components/ProcessMonitor.tsx:555-557 | Terminate in the modal closes it and removes the selected row |
| Scanner.FirstPress | components/Scanner.tsx:7-10 | before the first click the idle panel ignores timer firings, and the first press starts at 0% with an empty status line and no findings |
| Scanner.StartScan | components/Scanner.tsx:23-27 | a new scan runs from step 0 with 0% and no findings; the status line is kept |
| Scanner.PressScan | components/Scanner.tsx:95-97 | the disabled button ignores presses during a scan and starts one otherwise |
| Scanner.Tick | components/Scanner.tsx:29-62 | no timer, no change. Otherwise the step grows by one and findings are only appended. The scan runs on iff the step is below 20. Progress never drops and stays at most 100. The last step shows 100% and the completion text |
| Scanner.ScanAfterSteps | components/Scanner.tsx:29-62 | after `k` ≤ 20 steps: step `k`, progress `5k`, still scanning iff `k` < 20, the cycling file label or the completion text, and exactly the findings of steps 10 and 15 already reached |
| Scanner.FinishedScanIsStable | components/Scanner.tsx:56-61 | once the scan has stopped, further firings change nothing |
| Scanner.CompletedScan | components/Scanner.tsx:35-61 | a full scan ends idle at 100% with the completion text and exactly two findings: the critical hidden service, then the self-signed package |
| Scanner.PressDuringScanIsIgnored | components/Scanner.tsx:95-97 | a press at any point before the scan finishes leaves it as it is |
| Scanner.RescanClearsFindings | components/Scanner.tsx:23-27 | a new scan after a finished one has no findings until its step 10 |
| NetworkPanel.NewSample | components/NetworkPanel.tsx:18-23 | upload in [0, 499], download in [0, 999], connections in [5, 24] |
| NetworkPanel.SampleRangesAreTight | components/NetworkPanel.tsx:20-22 | every value in those ranges can be drawn |
| NetworkPanel.Push | components/NetworkPanel.tsx:17-26 | the new sample is last. Below 20 samples nothing is dropped; at 20 exactly the oldest is dropped; a window of at most 20 stays at most 20 |
| NetworkPanel.FeedShowsLatest | components/NetworkPanel.tsx:16-27 | from the empty chart, after `n` samples the chart holds the last `min(n, 20)` of them, oldest first |
| NetworkPanel.FullWindowSlides | components/NetworkPanel.tsx:24-25 | with 20 or more samples seen, each new sample evicts exactly the oldest |

## Left out

- Rendering, styling and icons are not modelled; the classifier keeps its titles and colours, but not the icon components. This covers `getStatusColor`, the static connections list of the network panel, and the Dashboard, About and Layout screens and the tab switch in `App.tsx`. They are presentation with no behaviour to state.
- `services/geminiService.ts` and `handleAnalyzeWithAI` are not part of this model: they forward a prompt to an external language-model service.
- The `setInterval`/`clearInterval` lifecycle and the React update batching are not modelled. Each timer firing is a `Tick` function, and timer teardown on unmount is outside the model.
- Event propagation (`stopPropagation` on the KILL and INFO buttons) is not modelled. A kill is modelled as not opening the modal, which is what stopping propagation achieves.
- `Math.random()`, `Date.now()` and `toLocaleTimeString` are left out. They are parameters. The start time string passes through unchanged.
- Binary floating point is not modelled. CPU load is exact tenths, and draws are exact reals. A double that sits exactly half-way between tenths may round differently in the source.
- ProcessSort.LexCompare: compares names by code point, not by the locale-aware `localeCompare`, which depends on the runtime's collation tables.
- Text.ToLower: lower-cases only ASCII letters; `toLowerCase` also maps non-ASCII capitals.
- ProcessDetails.Derive: states only the shape of the checksum, parent pid, user and start time, because they are random by design.
