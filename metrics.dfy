/**
 * The projector of src/metrics.ts: `updateTerasliceMetrics` and its helpers, as
 * methods writing into a `Registry`. Each method is proved to perform exactly the
 * writes `MetricsSpec` describes, in order; what those writes leave in the registry
 * is proved in `MetricsProperties`.
 */
module Metrics {
  import opened Wrappers
  import opened Interfaces
  import opened Registry
  import opened ImageVersion
  import opened MetricsSpec
  import opened Stats

  /** `parseController`: the nine controller gauges, under the controller's labels. */
  method ParseController(r: Registry, c: Controller, globals: Labels)
    modifies r
    ensures r.writes == old(r.writes) + ControllerWrites(c, globals)
  {
    ControllerWritesInOrder(c, globals);
    var l := ControllerLabels(c, globals);
    r.Set(WorkersActive, l, c.workersActive);
    r.Set(WorkersAvailable, l, c.workersAvailable);
    r.Set(WorkersJoined, l, c.workersJoined);
    r.Set(WorkersReconnected, l, c.workersReconnected);
    r.Set(WorkersDisconnected, l, c.workersDisconnected);
    r.Set(SlicesProcessed, l, c.processed);
    r.Set(SlicesFailed, l, c.failed);
    r.Set(SlicesQueued, l, c.queued);
    r.Set(NumSlicers, l, c.slicers);
  }

  /** The writes of `parseController`, spelled out in the order the source performs them. */
  lemma ControllerWritesInOrder(c: Controller, globals: Labels)
    ensures var l := ControllerLabels(c, globals);
            ControllerWrites(c, globals) == [
              Write(Series(WorkersActive, l), c.workersActive),
              Write(Series(WorkersAvailable, l), c.workersAvailable),
              Write(Series(WorkersJoined, l), c.workersJoined),
              Write(Series(WorkersReconnected, l), c.workersReconnected),
              Write(Series(WorkersDisconnected, l), c.workersDisconnected),
              Write(Series(SlicesProcessed, l), c.processed),
              Write(Series(SlicesFailed, l), c.failed),
              Write(Series(SlicesQueued, l), c.queued),
              Write(Series(NumSlicers, l), c.slicers)]
  {
  }

  /** `generateExecutionStatusMetrics`: one status series per listed status, 1 for the execution's own. */
  method GenerateExecutionStatusMetrics(r: Registry, e: Execution, exLabels: Labels)
    modifies r
    ensures r.writes == old(r.writes) + StatusWrites(e.status, exLabels)
  {
    ghost var ws := StatusWrites(e.status, exLabels);
    for k := 0 to |StatusList|
      invariant r.writes == old(r.writes) + ws[..k]
    {
      var status := StatusList[k];
      var state: real;
      if status == e.status {
        state := 1.0;
      } else {
        state := 0.0;
      }
      r.Set(ExStatus, StatusLabels(exLabels, status), state);
      assert ws[..k + 1] == ws[..k] + [ws[k]];
    }
    assert ws[..|StatusList|] == ws;
  }

  /**
   * `parseExecution`: cpu and memory only when truthy, the two timestamps in epoch
   * seconds, slicers and workers, then the status series.
   */
  method ParseExecution(r: Registry, e: Execution, globals: Labels, epochSeconds: string -> real)
    modifies r
    ensures r.writes == old(r.writes) + ExecutionWrites(e, globals, epochSeconds)
  {
    var l := ExecutionLabels(e, globals);
    ghost var w0 := r.writes;
    if Truthy(e.cpu) {
      r.Set(CpuRequest, l, e.cpu.value);
    }
    if Truthy(e.cpu) {
      r.Set(CpuLimit, l, e.cpu.value);
      Append2(w0, Write(Series(CpuRequest, l), e.cpu.value), Write(Series(CpuLimit, l), e.cpu.value));
    }
    ghost var w1 := r.writes;
    if Truthy(e.memory) {
      r.Set(MemoryRequest, l, e.memory.value);
    }
    if Truthy(e.memory) {
      r.Set(MemoryLimit, l, e.memory.value);
      Append2(w1, Write(Series(MemoryRequest, l), e.memory.value), Write(Series(MemoryLimit, l), e.memory.value));
    }
    ghost var w2 := r.writes;
    r.Set(CreatedTime, l, epochSeconds(e.created));
    r.Set(UpdatedTime, l, epochSeconds(e.updated));
    r.Set(ExSlicers, l, e.slicers);
    r.Set(ExWorkers, l, e.workers);
    Append4(w2, Write(Series(CreatedTime, l), epochSeconds(e.created)), Write(Series(UpdatedTime, l), epochSeconds(e.updated)),
            Write(Series(ExSlicers, l), e.slicers), Write(Series(ExWorkers, l), e.workers));
    ScalarWritesParts(e, l, epochSeconds, w0, w1, w2, r.writes);
    GenerateExecutionStatusMetrics(r, e, l);
    Append(w0, ScalarWrites(e, l, epochSeconds), StatusWrites(e.status, l));
  }

  lemma Append<T>(w: seq<T>, a: seq<T>, b: seq<T>)
    ensures w + a + b == w + (a + b)
  {
  }

  lemma Append2(w: seq<Write>, a: Write, b: Write)
    ensures w + [a] + [b] == w + [a, b]
  {
  }

  lemma Append4(w: seq<Write>, a: Write, b: Write, c: Write, d: Write)
    ensures w + [a] + [b] + [c] + [d] == w + [a, b, c, d]
  {
  }

  /** The three groups of writes `parseExecution` performs before the status series. */
  lemma ScalarWritesParts(e: Execution, l: Labels, epochSeconds: string -> real,
                          w0: seq<Write>, w1: seq<Write>, w2: seq<Write>, w3: seq<Write>)
    requires w1 == w0 + if Truthy(e.cpu) then [Write(Series(CpuRequest, l), e.cpu.value), Write(Series(CpuLimit, l), e.cpu.value)] else []
    requires w2 == w1 + if Truthy(e.memory) then [Write(Series(MemoryRequest, l), e.memory.value), Write(Series(MemoryLimit, l), e.memory.value)] else []
    requires w3 == w2 + [Write(Series(CreatedTime, l), epochSeconds(e.created)), Write(Series(UpdatedTime, l), epochSeconds(e.updated)),
                         Write(Series(ExSlicers, l), e.slicers), Write(Series(ExWorkers, l), e.workers)]
    ensures w3 == w0 + ScalarWrites(e, l, epochSeconds)
  {
  }

  /** `generateControllerStats`: `parseController` for every controller, in order. */
  method GenerateControllerStats(r: Registry, stats: TerasliceStats, globals: Labels)
    modifies r
    ensures r.writes == old(r.writes) + ControllerStatsWrites(stats.controllers, globals)
  {
    var cs := stats.controllers;
    for k := 0 to |cs|
      invariant r.writes == old(r.writes) + ControllerStatsWrites(cs[..k], globals)
    {
      ParseController(r, cs[k], globals);
      FlattenSnoc(cs, ControllerBlock(globals), k);
      Append(old(r.writes), ControllerStatsWrites(cs[..k], globals), ControllerWrites(cs[k], globals));
    }
    assert cs[..|cs|] == cs;
  }

  /** `generateExecutionStats`: `parseExecution` for every fetched execution, in order. */
  method GenerateExecutionStats(r: Registry, stats: TerasliceStats, globals: Labels, epochSeconds: string -> real)
    modifies r
    ensures r.writes == old(r.writes) + ExecutionStatsWrites(stats.executions, globals, epochSeconds)
  {
    var es := stats.executions;
    for k := 0 to |es|
      invariant r.writes == old(r.writes) + ExecutionStatsWrites(es[..k], globals, epochSeconds)
    {
      ParseExecution(r, es[k], globals, epochSeconds);
      FlattenSnoc(es, ExecutionBlock(globals, epochSeconds), k);
      Append(old(r.writes), ExecutionStatsWrites(es[..k], globals, epochSeconds), ExecutionWrites(es[k], globals, epochSeconds));
    }
    assert es[..|es|] == es;
  }

  /** One more node: its active workers follow those of the nodes before it. */
  lemma WorkersSnoc(state: ClusterState, n: nat)
    requires n < |state|
    ensures Workers(state[..n + 1]) == Workers(state[..n]) + state[n].1.active
  {
    assert state[..n + 1][..n] == state[..n];
  }

  /** One more worker: it adds an entry when its `ex_id` is non-empty and new. */
  lemma FirstSeenSnoc(ws: seq<Worker>, w: Worker)
    ensures FirstSeen(ws + [w]) ==
              if w.exId != "" && w.exId !in ExIds(FirstSeen(ws))
              then FirstSeen(ws) + [StateExecution(w.exId, w.jobId, w.image)]
              else FirstSeen(ws)
  {
    assert (ws + [w])[..|ws|] == ws;
  }

  lemma ExIdsSnoc(entries: seq<StateExecution>, x: StateExecution)
    ensures ExIds(entries + [x]) == ExIds(entries) + {x.exId}
  {
  }

  /**
   * The first loop of `generateExecutionVersions`: walk every node's active workers and
   * keep, per non-empty `ex_id`, the first worker seen, in insertion order.
   */
  method CollectStateExecutions(state: ClusterState) returns (entries: seq<StateExecution>)
    ensures entries == FirstSeen(Workers(state))
  {
    entries := [];
    var seen: set<string> := {};
    for n := 0 to |state|
      invariant entries == FirstSeen(Workers(state[..n]))
      invariant seen == ExIds(entries)
    {
      var active := state[n].1.active;
      ghost var before := Workers(state[..n]);
      assert before + active[..0] == before;
      for k := 0 to |active|
        invariant entries == FirstSeen(before + active[..k])
        invariant seen == ExIds(entries)
      {
        var w := active[k];
        FirstSeenSnoc(before + active[..k], w);
        assert active[..k + 1] == active[..k] + [w];
        Append(before, active[..k], [w]);
        if w.exId != "" && w.exId !in seen {
          ExIdsSnoc(entries, StateExecution(w.exId, w.jobId, w.image));
          entries := entries + [StateExecution(w.exId, w.jobId, w.image)];
          seen := seen + {w.exId};
        }
      }
      WorkersSnoc(state, n);
      assert active[..|active|] == active;
    }
    assert state[..|state|] == state;
  }

  /**
   * `generateExecutionVersions`: one execution-info series per collected entry, labelled
   * with the version the image regex captures; an image without a match throws, after
   * the entries before it have been written.
   */
  method GenerateExecutionVersions(r: Registry, stats: TerasliceStats, globals: Labels) returns (err: Option<MetricsError>)
    modifies r
    ensures r.writes == old(r.writes) + InfoWrites(FirstSeen(Workers(stats.state)), globals)
    ensures err.None? <==> UnversionedImage(FirstSeen(Workers(stats.state))).None?
    ensures err.Some? ==> err == Some(NoVersionMatch(UnversionedImage(FirstSeen(Workers(stats.state))).value))
  {
    var entries := CollectStateExecutions(stats.state);
    ghost var ws := InfoWrites(entries, globals);
    var k := 0;
    while k < |entries|
      invariant k <= VersionedPrefix(entries) && r.writes == old(r.writes) + ws[..k]
    {
      var x := entries[k];
      var version := Version(x.image);
      if version.None? {
        InfoWritesStop(entries, globals, k);
        return Some(NoVersionMatch(x.image));
      }
      assert k < VersionedPrefix(entries);
      InfoWritesAt(entries, globals, k);
      PrefixSnoc(ws, k);
      r.Set(ExecutionInfo, ExecutionInfoLabels(x, version.value, globals), 1.0);
      k := k + 1;
    }
    InfoWritesStop(entries, globals, k);
    return None;
  }

  /** An entry within the versioned prefix gets its one execution-info write. */
  lemma InfoWritesAt(entries: seq<StateExecution>, globals: Labels, k: nat)
    requires k < VersionedPrefix(entries)
    ensures k < |InfoWrites(entries, globals)|
    ensures InfoWrites(entries, globals)[k] == Write(InfoSeries(entries[k], globals), 1.0)
  {
  }

  lemma PrefixSnoc<T>(s: seq<T>, k: nat)
    requires k < |s|
    ensures s[..k + 1] == s[..k] + [s[k]]
  {
  }

  /** The writes stop at the first entry whose image does not match, or at the end. */
  lemma InfoWritesStop(entries: seq<StateExecution>, globals: Labels, k: nat)
    requires k <= VersionedPrefix(entries)
    requires k < |entries| ==> Version(entries[k].image).None?
    ensures k == VersionedPrefix(entries)
    ensures InfoWrites(entries, globals)[..k] == InfoWrites(entries, globals)
    ensures UnversionedImage(entries) == if k < |entries| then Some(entries[k].image) else None
  {
    assert InfoWrites(entries, globals)[..k] == InfoWrites(entries, globals);
  }

  /** What `updateTerasliceMetrics` reads from the collector. */
  function SnapshotOf(stats: TerasliceStats, displayUrl: string): Snapshot
    reads stats
  {
    Snapshot(displayUrl, stats.info, stats.controllers, stats.executions, stats.state, stats.queryDuration)
  }

  /**
   * `updateTerasliceMetrics`: reset the registry, then write master info, controller and
   * execution stats, execution versions and the five query durations. Throws when
   * `info` is still undefined, or when an image has no version match. Since the registry
   * then holds exactly these writes, its contents are `Projected(SnapshotOf(stats, displayUrl))`.
   */
  method UpdateTerasliceMetrics(r: Registry, stats: TerasliceStats, displayUrl: string, epochSeconds: string -> real)
    returns (err: Option<MetricsError>)
    modifies r
    ensures r.writes == ProjectionWrites(SnapshotOf(stats, displayUrl), epochSeconds)
    ensures err == ProjectionError(SnapshotOf(stats, displayUrl))
  {
    ghost var snap := SnapshotOf(stats, displayUrl);
    r.ResetMetrics();
    if stats.info.None? {
      return Some(InfoUndefined);
    }
    var info := stats.info.value;
    var globals := GlobalLabels(displayUrl, info);
    r.Set(MasterInfo, InfoLabels(info) + globals, 1.0);
    ghost var w0 := r.writes;
    GenerateControllerStats(r, stats, globals);
    ghost var w1 := r.writes;
    GenerateExecutionStats(r, stats, globals, epochSeconds);
    ghost var w2 := r.writes;
    err := GenerateExecutionVersions(r, stats, globals);
    ghost var w3 := r.writes;
    ProjectionInOrder(snap, epochSeconds, w0, w1, w2, w3);
    if err.Some? {
      assert w3 + [] == w3;
      return;
    }
    r.Set(QueryDurationSeconds, DurationLabels("info", globals), stats.queryDuration.info);
    r.Set(QueryDurationSeconds, DurationLabels("jobs", globals), stats.queryDuration.jobs);
    r.Set(QueryDurationSeconds, DurationLabels("controllers", globals), stats.queryDuration.controllers);
    r.Set(QueryDurationSeconds, DurationLabels("executions", globals), stats.queryDuration.executions);
    r.Set(QueryDurationSeconds, DurationLabels("state", globals), stats.queryDuration.state);
    DurationsInOrder(w3, stats.queryDuration, globals);
  }

  /** The projection's writes are its five parts, in the order `updateTerasliceMetrics` performs them. */
  lemma ProjectionInOrder(snap: Snapshot, epochSeconds: string -> real, w0: seq<Write>, w1: seq<Write>, w2: seq<Write>, w3: seq<Write>)
    requires snap.info.Some?
    requires w0 == MasterWrites(snap)
    requires w1 == w0 + ControllerStatsWrites(snap.controllers, Globals(snap))
    requires w2 == w1 + ExecutionStatsWrites(snap.executions, Globals(snap), epochSeconds)
    requires w3 == w2 + InfoWrites(Entries(snap), Globals(snap))
    ensures ProjectionWrites(snap, epochSeconds) == w3 + TailWrites(snap)
  {
  }

  /** The five query-duration writes, one after another, are `DurationWrites`. */
  lemma DurationsInOrder(w: seq<Write>, qd: QueryDuration, globals: Labels)
    ensures w + [Write(Series(QueryDurationSeconds, DurationLabels("info", globals)), qd.info)]
              + [Write(Series(QueryDurationSeconds, DurationLabels("jobs", globals)), qd.jobs)]
              + [Write(Series(QueryDurationSeconds, DurationLabels("controllers", globals)), qd.controllers)]
              + [Write(Series(QueryDurationSeconds, DurationLabels("executions", globals)), qd.executions)]
              + [Write(Series(QueryDurationSeconds, DurationLabels("state", globals)), qd.state)]
            == w + DurationWrites(qd, globals)
  {
  }
}
