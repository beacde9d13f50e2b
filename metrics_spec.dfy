/**
 * What `updateTerasliceMetrics` (src/metrics.ts:435-473) writes, as values: the
 * label sets it builds, the writes each helper performs in order, and for each
 * per-item helper an independent table of which series it sets to which value.
 */
module MetricsSpec {
  import opened Wrappers
  import opened Interfaces
  import opened Registry
  import opened ImageVersion

  /** The execution lifecycle states given a one-hot status series. */
  const StatusList: seq<string> := [
    "completed", "failed", "failing", "initializing", "paused", "pending", "recovering",
    "rejected", "running", "scheduling", "stopped", "stopping", "terminated"
  ]

  /** The nine controller gauges, in the order `parseController` sets them. */
  const ControllerGauges: seq<Gauge> := [
    WorkersActive, WorkersAvailable, WorkersJoined, WorkersReconnected, WorkersDisconnected,
    SlicesProcessed, SlicesFailed, SlicesQueued, NumSlicers
  ]

  /** What the projection reads from the collector, with the display URL given explicitly. */
  datatype Snapshot = Snapshot(
    displayUrl: string,
    info: Option<Info>,
    controllers: seq<Controller>,
    executions: seq<Execution>,
    state: ClusterState,
    queryDuration: QueryDuration)

  /** Why a projection stops: `info` is still undefined, or an image has no version match. */
  datatype MetricsError = InfoUndefined | NoVersionMatch(image: string)

  // ---------------------------------------------------------------- labels

  function GlobalLabels(displayUrl: string, info: Info): Labels {
    map["url" := displayUrl, "name" := info.name]
  }

  /** A label set shaped like the one `updateTerasliceMetrics` builds. */
  predicate IsGlobal(globals: Labels) {
    globals.Keys == GlobalLabelNames
  }

  /** `{ex_id, job_id, job_name, ...labels}`. */
  function ExLabels(exId: string, jobId: string, jobName: string, globals: Labels): Labels {
    map["ex_id" := exId, "job_id" := jobId, "job_name" := jobName] + globals
  }

  function ControllerLabels(c: Controller, globals: Labels): Labels {
    ExLabels(c.exId, c.jobId, c.name, globals)
  }

  function ExecutionLabels(e: Execution, globals: Labels): Labels {
    ExLabels(e.exId, e.jobId, e.name, globals)
  }

  /** `{...executionLabels, status}`. */
  function StatusLabels(exLabels: Labels, status: string): Labels {
    exLabels + map["status" := status]
  }

  /** The master info's own fields as labels. */
  function InfoLabels(info: Info): Labels {
    map["arch" := info.arch, "clustering_type" := info.clusteringType, "name" := info.name,
        "node_version" := info.nodeVersion, "platform" := info.platform,
        "teraslice_version" := info.terasliceVersion]
  }

  /** `{ex_id, job_id, image, version, ...labels}`. */
  function ExecutionInfoLabels(x: StateExecution, version: string, globals: Labels): Labels {
    map["ex_id" := x.exId, "job_id" := x.jobId, "image" := x.image, "version" := version] + globals
  }

  /** `{query_name, ...globalLabels}`. */
  function DurationLabels(queryName: string, globals: Labels): Labels {
    map["query_name" := queryName] + globals
  }

  // ---------------------------------------------------------------- controllers

  /** The controller field each controller gauge reports. */
  function ControllerValue(g: Gauge, c: Controller): real
    requires g in ControllerGauges
  {
    match g
    case WorkersActive => c.workersActive
    case WorkersAvailable => c.workersAvailable
    case WorkersJoined => c.workersJoined
    case WorkersReconnected => c.workersReconnected
    case WorkersDisconnected => c.workersDisconnected
    case SlicesProcessed => c.processed
    case SlicesFailed => c.failed
    case SlicesQueued => c.queued
    case NumSlicers => c.slicers
  }

  /** The writes of `parseController`. */
  function ControllerWrites(c: Controller, globals: Labels): seq<Write> {
    seq(|ControllerGauges|, k requires 0 <= k < |ControllerGauges| =>
      Write(Series(ControllerGauges[k], ControllerLabels(c, globals)), ControllerValue(ControllerGauges[k], c)))
  }

  function ControllerBlock(globals: Labels): Controller -> seq<Write> {
    c => ControllerWrites(c, globals)
  }

  /** The writes of `generateControllerStats`. */
  function ControllerStatsWrites(cs: seq<Controller>, globals: Labels): seq<Write> {
    Flatten(cs, ControllerBlock(globals))
  }

  /** Reference table: the value one controller gives a series, if it sets it at all. */
  function ControllerSeriesValue(c: Controller, globals: Labels, s: Series): Option<real> {
    if s.gauge in ControllerGauges && s.labels == ControllerLabels(c, globals)
    then Some(ControllerValue(s.gauge, c))
    else None
  }

  // ---------------------------------------------------------------- executions

  /** The execution field each per-execution scalar gauge reports; `None` when it is not set. */
  function ExecutionValue(g: Gauge, e: Execution, epochSeconds: string -> real): Option<real> {
    match g
    case CpuRequest => if Truthy(e.cpu) then Some(e.cpu.value) else None
    case CpuLimit => if Truthy(e.cpu) then Some(e.cpu.value) else None
    case MemoryRequest => if Truthy(e.memory) then Some(e.memory.value) else None
    case MemoryLimit => if Truthy(e.memory) then Some(e.memory.value) else None
    case CreatedTime => Some(epochSeconds(e.created))
    case UpdatedTime => Some(epochSeconds(e.updated))
    case ExSlicers => Some(e.slicers)
    case ExWorkers => Some(e.workers)
    case _ => None
  }

  /** The writes of `generateExecutionStatusMetrics`: one per listed status. */
  function StatusWrites(status: string, exLabels: Labels): seq<Write> {
    seq(|StatusList|, k requires 0 <= k < |StatusList| =>
      Write(Series(ExStatus, StatusLabels(exLabels, StatusList[k])), if StatusList[k] == status then 1.0 else 0.0))
  }

  /** The writes of `parseExecution` before the status series. */
  function ScalarWrites(e: Execution, l: Labels, epochSeconds: string -> real): seq<Write> {
    (if Truthy(e.cpu) then [Write(Series(CpuRequest, l), e.cpu.value), Write(Series(CpuLimit, l), e.cpu.value)] else [])
    + (if Truthy(e.memory) then [Write(Series(MemoryRequest, l), e.memory.value), Write(Series(MemoryLimit, l), e.memory.value)] else [])
    + [Write(Series(CreatedTime, l), epochSeconds(e.created)), Write(Series(UpdatedTime, l), epochSeconds(e.updated)),
       Write(Series(ExSlicers, l), e.slicers), Write(Series(ExWorkers, l), e.workers)]
  }

  /** The writes of `parseExecution`. */
  function ExecutionWrites(e: Execution, globals: Labels, epochSeconds: string -> real): seq<Write> {
    var l := ExecutionLabels(e, globals);
    ScalarWrites(e, l, epochSeconds) + StatusWrites(e.status, l)
  }

  function ExecutionBlock(globals: Labels, epochSeconds: string -> real): Execution -> seq<Write> {
    e => ExecutionWrites(e, globals, epochSeconds)
  }

  /** The writes of `generateExecutionStats`. */
  function ExecutionStatsWrites(es: seq<Execution>, globals: Labels, epochSeconds: string -> real): seq<Write> {
    Flatten(es, ExecutionBlock(globals, epochSeconds))
  }

  /** Is `s` a status series of the execution labelled `l`? */
  predicate IsStatusSeriesOf(s: Series, l: Labels) {
    s.gauge == ExStatus && "status" in s.labels && s.labels["status"] in StatusList
    && s.labels - {"status"} == l
  }

  /** Reference table: the value one execution gives a series, if it sets it at all. */
  function ExecutionSeriesValue(e: Execution, globals: Labels, epochSeconds: string -> real, s: Series): Option<real> {
    var l := ExecutionLabels(e, globals);
    if IsStatusSeriesOf(s, l) then Some(if s.labels["status"] == e.status then 1.0 else 0.0)
    else if s.gauge != ExStatus && s.labels == l then ExecutionValue(s.gauge, e, epochSeconds)
    else None
  }

  // ---------------------------------------------------------------- execution versions

  /** The workers of every node, in node order and then `active` order. */
  function Workers(state: ClusterState): seq<Worker>
    decreases |state|
  {
    if state == [] then []
    else Workers(state[..|state| - 1]) + state[|state| - 1].1.active
  }

  function ExIds(entries: seq<StateExecution>): set<string> {
    set x | x in entries :: x.exId
  }

  /** The dictionary built at src/metrics.ts:402-414, in insertion order. */
  function FirstSeen(ws: seq<Worker>): seq<StateExecution>
    decreases |ws|
  {
    if ws == [] then []
    else
      var prev := FirstSeen(ws[..|ws| - 1]);
      var w := ws[|ws| - 1];
      if w.exId != "" && w.exId !in ExIds(prev) then prev + [StateExecution(w.exId, w.jobId, w.image)]
      else prev
  }

  /** How many entries, from the front, have an image the version regex matches. */
  function VersionedPrefix(entries: seq<StateExecution>): (n: nat)
    ensures n <= |entries|
    ensures forall k :: 0 <= k < n ==> Version(entries[k].image).Some?
    ensures n < |entries| ==> Version(entries[n].image).None?
    decreases |entries|
  {
    if entries == [] || Version(entries[0].image).None? then 0
    else
      var n := 1 + VersionedPrefix(entries[1..]);
      assert forall k :: 1 <= k < n ==> entries[k] == entries[1..][k - 1];
      n
  }

  /** The image whose missing version match stops the projection, if any. */
  function UnversionedImage(entries: seq<StateExecution>): Option<string> {
    var n := VersionedPrefix(entries);
    if n < |entries| then Some(entries[n].image) else None
  }

  function InfoSeries(x: StateExecution, globals: Labels): Series
    requires Version(x.image).Some?
  {
    Series(ExecutionInfo, ExecutionInfoLabels(x, Version(x.image).value, globals))
  }

  /** The writes of the second loop of `generateExecutionVersions`, up to the entry it throws on. */
  function InfoWrites(entries: seq<StateExecution>, globals: Labels): seq<Write> {
    seq(VersionedPrefix(entries), k requires 0 <= k < VersionedPrefix(entries) =>
      Write(InfoSeries(entries[k], globals), 1.0))
  }

  // ---------------------------------------------------------------- query durations

  /** The query names of src/metrics.ts:453-472, in the order they are set. */
  const DurationNames: seq<string> := ["info", "jobs", "controllers", "executions", "state"]

  /** The collector's figure reported under each query name. */
  function DurationValue(qd: QueryDuration, queryName: string): real {
    match queryName
    case "info" => qd.info
    case "jobs" => qd.jobs
    case "controllers" => qd.controllers
    case "executions" => qd.executions
    case _ => qd.state
  }

  /** The writes of src/metrics.ts:453-472: one per query name. */
  function DurationWrites(qd: QueryDuration, globals: Labels): seq<Write> {
    seq(|DurationNames|, k requires 0 <= k < |DurationNames| =>
      Write(Series(QueryDurationSeconds, DurationLabels(DurationNames[k], globals)), DurationValue(qd, DurationNames[k])))
  }

  // ---------------------------------------------------------------- the whole projection

  function Globals(snap: Snapshot): Labels
    requires snap.info.Some?
  {
    GlobalLabels(snap.displayUrl, snap.info.value)
  }

  function Entries(snap: Snapshot): seq<StateExecution> {
    FirstSeen(Workers(snap.state))
  }

  function MasterWrites(snap: Snapshot): seq<Write>
    requires snap.info.Some?
  {
    [Write(Series(MasterInfo, InfoLabels(snap.info.value) + Globals(snap)), 1.0)]
  }

  /** The writes after the execution-info entries: the durations, unless an image threw. */
  function TailWrites(snap: Snapshot): seq<Write>
    requires snap.info.Some?
  {
    if UnversionedImage(Entries(snap)).None? then DurationWrites(snap.queryDuration, Globals(snap)) else []
  }

  /** Every write `updateTerasliceMetrics` performs after `resetMetrics`, in order. */
  function ProjectionWrites(snap: Snapshot, epochSeconds: string -> real): seq<Write> {
    if snap.info.None? then []
    else
      var g := Globals(snap);
      MasterWrites(snap)
      + ControllerStatsWrites(snap.controllers, g)
      + ExecutionStatsWrites(snap.executions, g, epochSeconds)
      + InfoWrites(Entries(snap), g)
      + TailWrites(snap)
  }

  /** The error `updateTerasliceMetrics` throws, if any. */
  function ProjectionError(snap: Snapshot): Option<MetricsError> {
    if snap.info.None? then Some(InfoUndefined)
    else match UnversionedImage(Entries(snap))
      case Some(image) => Some(NoVersionMatch(image))
      case None => None
  }

  /** The registry after `updateTerasliceMetrics(snap)`, whatever it held before. */
  function Projected(snap: Snapshot, epochSeconds: string -> real): Samples {
    Written(ProjectionWrites(snap, epochSeconds))
  }
}
