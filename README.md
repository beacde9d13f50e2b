# teraslice-exporter core, modelled in Dafny

teraslice-exporter is a Prometheus exporter for a Teraslice cluster. Its core has two parts:

- **The snapshot collector** (`src/teraslice-stats.ts`, class `TerasliceStats`). It asks the
  cluster master's REST API for four things in one batch: its info, its jobs, its execution
  controllers and its cluster state. It then fetches the detail of every controller's
  execution, ten at a time, pausing 25 ms after each chunk. The answers become the object's
  fields, together with the duration of each query.
- **The metric projection** (`src/metrics.ts`). `updateTerasliceMetrics` empties the
  process-wide prom-client registry and writes these gauges from one snapshot:
  - the master-info gauge;
  - nine gauges per controller;
  - per execution, its resource, timestamp and count gauges and a 13-way one-hot status gauge;
  - one execution-info series per worker `ex_id`, carrying a version label cut out of the
    worker's image by the regex `/.*:(.*)_.*/g`;
  - the five query durations.

## Modules

| file | module | what it holds |
|---|---|---|
| `wrappers.dfy` | `Wrappers` | `Option` and `Result` |
| `interfaces.dfy` | `Interfaces` | the payload records (`Info`, `Controller`, `Execution`, `Worker`, `ClusterState`, `QueryDuration`) and JavaScript truthiness of an optional number |
| `registry.dfy` | `Registry` | the gauges and their declared label names, and the registry as a class. Its state is the sequence of `set` calls since the last reset; `Contents()` is the map from (gauge, label map) to value that those calls leave. Also the algebra of folding writes into that map |
| `image_version.dfy` | `ImageVersion` | the inline version regex: the greedy match on one line, the first matching line |
| `metrics_spec.dfy` | `MetricsSpec` | the projection as values: the labels it builds, the writes each helper performs in order, and reference tables saying which series each helper sets to which value |
| `metrics_blocks.dfy` | `MetricsBlocks` | each helper's writes against its reference table, and the dictionary of first-seen workers |
| `metrics_properties.dfy` | `MetricsProperties` | what the registry holds after a projection, series by series |
| `metrics.dfy` | `Metrics` | the projection as methods writing into a `Registry`, each proved to perform exactly the writes `MetricsSpec` describes |
| `stats.dfy` | `Stats` | the collector: the request decision, the batch and chunk specification, and class `TerasliceStats` |

The network is a `Cluster` value: what the master answers to each request of one update.

- A request the HTTP client rejects is `Rejected`.
- A request it resolves is a `Reply` with a status code, an optional body and the measured total time.
- The ghost field `trace` of `TerasliceStats` records the requests issued and the pauses taken, in order.
- `Promise.all` is modelled as issuing every request of its batch, then reporting either all
  results in order or the error of the first failing request in order.

## Model

| member | source | states |
|---|---|---|
| Registry.Registry.constructor | src/metrics.ts:7 | a new registry holds no series |
| Registry.Registry.Set | src/metrics.ts:224-234 | `gauge.set(labels, v)` overwrites the one series (gauge, labels) with `v` and leaves every other series unchanged; the call is recorded as one more write |
| Registry.Registry.ResetMetrics | src/metrics.ts:436 | `resetMetrics()` empties the registry |
| Registry.ApplySnoc | src/metrics.ts:224-234 | performing one more write is one map update of that write's series |
| Registry.ApplyConcat | src/metrics.ts:449-451 | performing two write sequences one after the other is performing their concatenation |
| Registry.ApplyIsUnion | src/metrics.ts:449-451 | a write sequence overrides the series it touches and keeps every other series of the start state |
| Registry.ApplyKeys | src/metrics.ts:436-472 | after a write sequence the registry holds the start series plus exactly the series written |
| Registry.ApplyLast | src/metrics.ts:224-234 | a series holds the value of its last write |
| Registry.FlattenTargets | src/metrics.ts:349-351 | the loop over items sets a series iff some item's block writes it |
| Registry.FlattenLast | src/metrics.ts:349-351 | when no later item writes a series, the value of the last item that writes it survives the loop |
| Registry.SectionLookup | src/metrics.ts:449-451 | a series whose gauge only the middle helper writes is present and valued as that helper left it |
| ImageVersion.MatchLineIsGreedy | src/metrics.ts:417-418 | on one line the regex matches iff some `:` precedes some `_`; the capture lies between the rightmost such `:` and the rightmost `_`, the split greedy backtracking prefers over every other |
| ImageVersion.VersionOfSingleLine | src/metrics.ts:417-418 | on a single-line image the first match is that line's match |
| ImageVersion.VersionOfFirstLine | src/metrics.ts:417-418 | a match never crosses any of the four JavaScript line terminators (`\n`, `\r`, U+2028, U+2029): a matching first line decides the version, otherwise the search resumes after the terminator |
| ImageVersion.VersionOfTaggedImage | src/metrics.ts:417-422 | `<repository>:<tag>_<build>`, with no `:` in the tag and no `_` in the build, yields `tag`; `…/teraslice:v0.70.0_12345` gives `v0.70.0` |
| ImageVersion.NoVersionWithoutSplit | src/metrics.ts:418-422 | a single-line image with no `:` before its last `_`, such as one without `_`, has no match, so `m[0][1]` throws |
| ImageVersion.LastIndexIs | src/metrics.ts:417 | the search for the last occurrence of a character finds the occurrence no later one follows |
| Metrics.ParseController | src/metrics.ts:216-235 | performs exactly the nine controller writes, in the source's order, under `{ex_id, job_id, job_name, url, name}` |
| Metrics.ControllerWritesInOrder | src/metrics.ts:224-234 | the nine writes are workers active, available, joined, reconnected, disconnected, slices processed, failed, queued, and slicers, with the controller's matching counters |
| MetricsBlocks.ControllerBlockSpec | src/metrics.ts:216-235 | one controller sets exactly the series of its reference table, to the table's values |
| MetricsBlocks.ControllerStatsKeys | src/metrics.ts:348-352 | the controller pass sets a series iff some controller's table has it |
| MetricsBlocks.ControllerStatsLast | src/metrics.ts:348-352 | a later controller with identical labels overwrites an earlier one: the last one wins |
| Metrics.GenerateControllerStats | src/metrics.ts:348-352 | performs every controller's writes, in controller order |
| Metrics.GenerateExecutionStatusMetrics | src/metrics.ts:237-268 | performs exactly the status writes: one per listed status, in list order |
| MetricsBlocks.StatusWritesSpec | src/metrics.ts:237-268 | the status writes set each series once; they target exactly the execution's labels plus one of the 13 listed statuses; write `k` carries status `k` |
| MetricsBlocks.StatusListDistinct | src/metrics.ts:238-252 | the 13 statuses are pairwise distinct |
| Metrics.ParseExecution | src/metrics.ts:320-346 | performs exactly the execution's writes: cpu request and limit if `cpu` is truthy, memory request and limit if `memory` is truthy, created and updated time, slicers, workers, then the status series |
| Metrics.ScalarWritesParts | src/metrics.ts:335-344 | the three groups of conditional and unconditional writes, appended in order, are the execution's scalar writes |
| MetricsBlocks.ScalarWritesShape | src/metrics.ts:335-344 | scalar write `k` targets the `k`-th gauge written and carries the reference table's value for it |
| MetricsBlocks.ScalarWritesSpec | src/metrics.ts:335-344 | the scalar writes touch distinct gauges under the execution's labels, carry the table's values, and cover every gauge the table gives a value |
| MetricsBlocks.ExecutionBlockSpec | src/metrics.ts:320-346 | one execution sets exactly the series of its reference table, to the table's values |
| MetricsBlocks.ExLabelsKeys | src/metrics.ts:321-326 | an execution's label names are `ex_id`, `job_id`, `job_name`, `url`, `name`, never `status` |
| Metrics.GenerateExecutionStats | src/metrics.ts:354-358 | performs every execution's writes, in execution order |
| MetricsBlocks.ExecutionStatsKeys | src/metrics.ts:354-358 | the execution pass sets a series iff some execution's table has it |
| MetricsBlocks.ExecutionStatsLast | src/metrics.ts:354-358 | a later execution setting the same series overwrites an earlier one |
| Metrics.WorkersSnoc | src/metrics.ts:404-405 | the workers of one more node follow those of the nodes before it |
| Metrics.FirstSeenSnoc | src/metrics.ts:406-412 | one more worker adds an entry exactly when its `ex_id` is non-empty and not yet a key |
| Metrics.CollectStateExecutions | src/metrics.ts:402-414 | the nested loop builds the dictionary of first-seen workers, in insertion order |
| MetricsBlocks.FirstSeenIds | src/metrics.ts:402-414 | the dictionary holds one entry per distinct non-empty worker `ex_id` and no other |
| MetricsBlocks.FirstSeenFrom | src/metrics.ts:406-412 | every entry comes from the first worker, in node then `active` order, carrying its id |
| MetricsBlocks.FirstSeenFirst | src/metrics.ts:406-412 | the first worker carrying an id gives that id its entry, with its `job_id` and `image` |
| Metrics.GenerateExecutionVersions | src/metrics.ts:416-432 | writes one execution-info series, valued 1, per entry up to the first image without a match; reports that image as an error, or none when every entry matches |
| Metrics.InfoWritesAt | src/metrics.ts:424-431 | an entry before the first unmatched image gets the write with its ids, image, version and global labels |
| Metrics.InfoWritesStop | src/metrics.ts:418-422 | the writes stop at the first entry whose image has no match, or at the end of the dictionary |
| MetricsBlocks.InfoWritesSpec | src/metrics.ts:416-432 | the execution-info pass sets exactly the series of the matched entries, each to 1 |
| Metrics.UpdateTerasliceMetrics | src/metrics.ts:435-473 | after a reset, performs the master-info write, the controller, execution and execution-info passes, and the five durations. It stops with `InfoUndefined` when `info` is undefined and with `NoVersionMatch` at an unmatched image |
| Metrics.ProjectionInOrder | src/metrics.ts:444-451 | the helpers' writes, performed in turn, are the projection's writes |
| Metrics.DurationsInOrder | src/metrics.ts:453-472 | the five duration writes, in the order info, jobs, controllers, executions, state, are the duration pass |
| MetricsProperties.ProjectionParts | src/metrics.ts:444-472 | a projection's writes are its five helpers' writes in order |
| MetricsProperties.ProjectedBySection | src/metrics.ts:444-472 | each gauge is written by one helper only, so a series' presence and value after a projection are those that helper's writes alone give it |
| MetricsProperties.ProjectedKeys | src/metrics.ts:436-472 | after a projection the registry holds exactly the series the reference description derives from this snapshot, and nothing when `info` is undefined |
| MetricsProperties.ProjectedLabelNames | src/metrics.ts:10-187 | every series a projection leaves carries exactly the label names its gauge declares: `exLabelNames`, plus `status` for the status gauge, the info fields and globals for master info, `ex_id`, `job_id`, `image`, `version` and globals for execution info, `query_name` and globals for durations |
| MetricsProperties.SetBySnapshotLabels | src/metrics.ts:217-222 | every series the reference description derives from a snapshot carries its gauge's declared label names |
| MetricsProperties.ControllerSeriesLabels | src/metrics.ts:217-222 | a controller's series carry the declared `exLabelNames` |
| MetricsProperties.ExecutionSeriesLabels | src/metrics.ts:321-326 | an execution's series carry `exLabelNames`, and its status series add `status` |
| MetricsProperties.ProjectedMasterInfo | src/metrics.ts:438-447 | one master-info series, valued 1, labelled with the info fields plus `url = displayUrl` and `name = info.name`; the global labels win over the info's own keys |
| MetricsProperties.ExLabelsInjective | src/metrics.ts:217-222 | two items share their label set iff they have the same `ex_id`, `job_id` and name |
| MetricsProperties.ControllerWritten | src/metrics.ts:348-352 | within the controller pass, a controller no later one shares its labels with keeps its nine counters |
| MetricsProperties.ProjectedController | src/metrics.ts:216-235 | after a projection each of a controller's nine gauges holds its counter, unless a later controller with the same labels overwrote it |
| MetricsProperties.ExecutionScalarWritten | src/metrics.ts:335-344 | within the execution pass, a scalar gauge of an execution is present iff the table gives a value, and then holds it |
| MetricsProperties.ProjectedExecutionScalar | src/metrics.ts:335-344 | after a projection, cpu request and limit exist iff `cpu` is truthy and then equal `cpu`; likewise for memory; the timestamps hold the parsed dates; slicers and workers are always set |
| MetricsProperties.StatusWritten | src/metrics.ts:254-268 | within the execution pass, the last execution with its labels keeps its 13 status series |
| MetricsProperties.ProjectedStatus | src/metrics.ts:254-268 | after a projection the status series of an execution that no later execution shares its labels with are one-hot: 1 for its own status, 0 for the others; earlier executions with the same labels are overwritten |
| MetricsProperties.OneHotTotal | src/metrics.ts:262-266 | summing the one-hot values over distinct statuses gives 1 iff the own status is among them |
| MetricsProperties.ProjectedStatusTotal | src/metrics.ts:254-268 | the status series of an execution that no later execution shares its labels with sum to 1 when its status is listed and to 0 otherwise |
| MetricsProperties.ProjectedStatusListed | src/metrics.ts:238-258 | no status series outside the 13 listed statuses is ever present |
| MetricsProperties.ProjectedExecutionInfo | src/metrics.ts:416-432 | the execution-info series are exactly those of the matched dictionary entries, each valued 1 |
| MetricsProperties.ProjectedExecutionInfoOfWorker | src/metrics.ts:402-431 | in a completed projection the first worker carrying an `ex_id` gives it an execution-info series with its `job_id`, its image and the version cut from it |
| MetricsProperties.InfoWrittenFor | src/metrics.ts:424-431 | within the execution-info pass, every series written belongs to one matched entry and carries its `ex_id` |
| MetricsProperties.InfoWrittenUnique | src/metrics.ts:416-432 | within the execution-info pass, one series per `ex_id`, and only for ids of the dictionary |
| MetricsProperties.ProjectedExecutionInfoUnique | src/metrics.ts:402-432 | at most one execution-info series per `ex_id`, and only for non-empty ids some worker carries |
| MetricsProperties.ProjectionCompletes | src/metrics.ts:435-451 | a projection completes iff `info` is defined and the first worker of every `ex_id` has an image the regex matches |
| MetricsProperties.ProjectionStopsAtUnversioned | src/metrics.ts:417-472 | an unmatched image stops the projection: the image has no match, some first worker carries it, and no query-duration series is written |
| MetricsProperties.DurationWritesSpec | src/metrics.ts:453-472 | the duration pass sets exactly one series per query name under the global labels, to that query's figure |
| MetricsProperties.ProjectedDurations | src/metrics.ts:453-472 | a completed projection holds the five query-duration series, each with the collector's figure unchanged |
| Stats.TerasliceStats.constructor | src/teraslice-stats.ts:133-147 | empty controllers, executions, jobs and state, no info, all five durations 0 |
| Stats.GetTerasliceApi | src/teraslice-stats.ts:149-176 | succeeds iff the reply is a 200 with a truthy body, returning the body and the total time; otherwise an error naming the URL, whose cause is the status code of a resolved reply or the client's own error |
| Stats.FirstFailure | src/teraslice-stats.ts:188-190 | the index of the first failing detail request: every earlier one succeeds |
| Stats.FetchAllSpec | src/teraslice-stats.ts:188-193 | a batch succeeds iff every request does, and then holds one detail per controller in controller order; otherwise it fails with the first failing request's error |
| Stats.FetchAllFails | src/teraslice-stats.ts:188-190 | a batch fails iff some request fails, with the first failing request's error |
| Stats.FirstFailureUnique | src/teraslice-stats.ts:188-190 | the first failure is the one index after only successes with a failure of its own |
| Stats.FirstFailurePrefix | src/teraslice-stats.ts:188-190 | the first failure of a prefix is the first failure overall, cut at the prefix's end |
| Stats.FetchAllConcat | src/teraslice-stats.ts:184-193 | the batch over `a + b` is the batch over `a` followed by the batch over `b` |
| Stats.ChunkSizes | src/teraslice-stats.ts:184-185 | there are ceil(n/10) chunks, each holding between 1 and 10 controllers |
| Stats.ChunksCover | src/teraslice-stats.ts:184-185 | every controller index lies in exactly one chunk, chunk `i / 10` |
| Stats.ChunksJoin | src/teraslice-stats.ts:184-185 | the chunks before chunk `k`, joined, are the first `min(10k, n)` controllers |
| Stats.ChunkIndex | src/teraslice-stats.ts:184 | the loop runs chunk `j` iff `j < ceil(n/10)`; after the last chunk every controller is covered |
| Stats.Gets | src/teraslice-stats.ts:188-190 | a chunk issues one request per controller, to `/v1/ex/<ex_id>`, in order |
| Stats.RequestsConcat | src/teraslice-stats.ts:184-197 | the requests and pauses of two traces add up |
| Stats.GetsRequests | src/teraslice-stats.ts:188-190 | a chunk's requests are its controllers' detail paths, and it takes no pause |
| Stats.PathsConcat | src/teraslice-stats.ts:188-190 | the detail paths of `a + b` are those of `a`, then those of `b` |
| Stats.ChunkTracesSpec | src/teraslice-stats.ts:184-197 | after `k` chunks the first `min(10k, n)` details are requested once each, in order, and a pause follows every chunk, the last one included |
| Stats.RoundMsNearest | src/teraslice-stats.ts:199-201 | the executions duration is the elapsed time rounded to the nearest millisecond, halves up |
| Stats.FetchInitial | src/teraslice-stats.ts:210-215 | the four initial requests succeed together or fail with an error naming one of their four URLs |
| Stats.TerasliceStats.FetchChunk | src/teraslice-stats.ts:188-190 | issues every request of the chunk, and returns the batch's result |
| Stats.TerasliceStats.NextChunk | src/teraslice-stats.ts:185-196 | one loop pass: on success the details of one more chunk are appended, followed by a pause; on failure the loop's stopped state holds |
| Stats.TerasliceStats.UpdateExecutions | src/teraslice-stats.ts:178-202 | on success, `executions` is every controller's detail in controller order, and the executions duration is the rounded elapsed time. On failure, `executions` holds the chunks before the failing one, the durations are unchanged, and the first failing request's error is reported |
| Stats.TerasliceStats.Update | src/teraslice-stats.ts:206-230 | a failing initial request changes no field. Otherwise `info`, `jobs`, `controllers` and `state` are overwritten first. A failing detail request then leaves all five durations unchanged. Full success sets four durations from the request timings and the executions duration from the elapsed time. Every error is wrapped with the base URL |
| Stats.StoppedAt | src/teraslice-stats.ts:188-193 | a failing chunk leaves the loop in the stopped state |
| Stats.FetchedAll | src/teraslice-stats.ts:184-197 | after the last chunk the loop is in the fetched state |
| Stats.TraceStep | src/teraslice-stats.ts:196 | the pause after chunk `j`'s requests completes the trace of `j + 1` chunks |
| Stats.ChunkAdvance | src/teraslice-stats.ts:193 | appending chunk `j`'s details extends the batch over the first `j` chunks to `j + 1` |
| Stats.FirstFailureInChunk | src/teraslice-stats.ts:188-190 | when the chunks before `j` succeed and chunk `j` fails, the first failure overall is the first in chunk `j` |
| Stats.FirstFailureAfter | src/teraslice-stats.ts:188-190 | after an all-success prefix, the first failure is the first failure of the slice that follows it |
| Stats.ChunkFailure | src/teraslice-stats.ts:188-193 | a failing chunk `j` holds the first failing request, and the whole batch fails with that chunk's error |
| Stats.ChunkOffset | src/teraslice-stats.ts:184-185 | an index inside chunk `j` divides back to `j` |
| Stats.FailureInside | src/teraslice-stats.ts:188-193 | a batch whose first failure lies in a slice fails with that slice's error |

## Left out

- HTTP, JSON decoding and timing inside `got` (src/teraslice-stats.ts:163) become the `Cluster` value. Its typed responses stand for the decoded bodies; a body that is absent or falsy is `None`.
- URL resolution (`new URL(path, baseUrl)`) is the pair `Url(base, path)`; the text of the error messages is their structured cause.
- `process.hrtime` (src/teraslice-stats.ts:179, 200) is the `elapsedNs` parameter.
- The concurrency of `Promise.all` is not modelled: each batch issues its requests in order and reports the first failure in that order. When several requests fail, a real run may report another one's error.
- `pDelay`/`setTimeout` (src/teraslice-stats.ts:112-116) appear only as a `Pause` event in the ghost trace; no time passes in the model.
- The execution detail is modelled as a fixed answer per `ex_id` within one update, so two controllers with the same `ex_id` get the same answer.
- Date parsing and the division for the created/updated timestamps (src/metrics.ts:340-341) are the `epochSeconds` parameter, including whatever it gives for an unparseable date (NaN).
- Truthiness of `cpu`/`memory` is "present and not 0"; NaN, which is also falsy, is not a value of the model's numbers.
- prom-client internals are left out: label-name validation (`ProjectedLabelNames` shows the projection always uses the declared names), the metric names and help texts, the `registers` wiring, the text exposition format, and gauge methods other than `set` and `resetMetrics`.
- The iteration order of JavaScript objects is left out. `Object.entries` over the cluster state and over the execution dictionary puts integer-like keys first. The model keeps the state's node order as given and the dictionary in insertion order. The special key `__proto__` is not modelled either.
- The body of `GET /v1/jobs` is stored but never inspected; `Job` keeps only two fields.
- `displayUrl` (src/metrics.ts:439) is read from the collector object, but the class never declares it (src/teraslice-stats.ts:118-131). Here it is an explicit parameter of the projection.
- `info` is undefined until the first successful update, and `terasliceStats.info.name` (src/metrics.ts:440) then throws. This is modelled as the `InfoUndefined` error, returned after the registry is reset.
- The `TypeError` of `m[0][1]` on an image with no regex match (src/metrics.ts:418-422) is modelled as the `NoVersionMatch` error. The guard `m[0] !== []` is always true and is not a separate branch.
- The query-duration gauge is named and described as seconds (src/metrics.ts:91-96), but it receives the collector's milliseconds unchanged (src/teraslice-stats.ts:90-99). The model keeps the milliseconds.
- src/index.ts (the HTTP server, environment handling and polling timer), the root index.ts (a superseded single-file exporter), src/util.ts and src/util.test.ts are not part of this model. src/interfaces.ts is used only for the record shapes. The `extractVersionFromImageTag` helper those tests expect does not exist in the shown sources; the inline regex is modelled as written.
- Registry.Registry.Set: states the appended write and the overwritten series; label-name validation against the gauge's declared names is not modelled.
- Metrics.UpdateTerasliceMetrics: states the exact write sequence and error; the registry's contents follow as `Projected`, whose properties are the `MetricsProperties` lemmas.
- MetricsProperties.ProjectedExecutionScalar: covers cpu, memory, timestamps, slicers and workers through one reference table `ExecutionValue` rather than one lemma per gauge. It assumes no other execution shares the labels; with shared labels the last execution wins, as `MetricsBlocks.ExecutionStatsLast` states.
