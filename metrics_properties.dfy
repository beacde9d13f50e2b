/**
 * What the registry holds after `updateTerasliceMetrics` (src/metrics.ts:435-473),
 * stated series by series. Each gauge is written by one helper only, so a series'
 * presence and value are decided by that helper's writes alone; the lemmas below
 * combine this with the per-helper properties of MetricsBlocks.
 */
module MetricsProperties {
  import opened Wrappers
  import opened Interfaces
  import opened Registry
  import opened ImageVersion
  import opened MetricsSpec
  import opened MetricsBlocks

  /** The writes of the one helper that sets gauge `g`. */
  function Section(snap: Snapshot, epochSeconds: string -> real, g: Gauge): seq<Write>
    requires snap.info.Some?
  {
    match SectionIndex(g)
    case 0 => MasterWrites(snap)
    case 1 => ControllerStatsWrites(snap.controllers, Globals(snap))
    case 2 => ExecutionStatsWrites(snap.executions, Globals(snap), epochSeconds)
    case 3 => InfoWrites(Entries(snap), Globals(snap))
    case _ => TailWrites(snap)
  }

  lemma InfoGauges(entries: seq<StateExecution>, globals: Labels)
    ensures GaugesOf(InfoWrites(entries, globals)) <= {ExecutionInfo}
  {
  }

  lemma TailGauges(snap: Snapshot)
    requires snap.info.Some?
    ensures GaugesOf(TailWrites(snap)) <= {QueryDurationSeconds}
  {
  }

  /** The write sequence of a projection, cut into its five helpers' sections. */
  lemma ProjectionParts(snap: Snapshot, epochSeconds: string -> real)
    requires snap.info.Some?
    ensures ProjectionWrites(snap, epochSeconds) ==
              MasterWrites(snap) + ControllerStatsWrites(snap.controllers, Globals(snap))
              + ExecutionStatsWrites(snap.executions, Globals(snap), epochSeconds)
              + InfoWrites(Entries(snap), Globals(snap)) + TailWrites(snap)
  {
  }

  /** Looking a series up in `a + b + c + d + e` when only section `b`, `c` or `d` may set its gauge. */
  lemma Lookup5(a: seq<Write>, b: seq<Write>, c: seq<Write>, d: seq<Write>, e: seq<Write>, k: nat, s: Series)
    requires k < 5
    requires k != 0 ==> s.gauge !in GaugesOf(a)
    requires k != 1 ==> s.gauge !in GaugesOf(b)
    requires k != 2 ==> s.gauge !in GaugesOf(c)
    requires k != 3 ==> s.gauge !in GaugesOf(d)
    requires k != 4 ==> s.gauge !in GaugesOf(e)
    ensures s in Written(a + b + c + d + e) <==> s in Written([a, b, c, d, e][k])
    ensures s in Written([a, b, c, d, e][k]) ==> Written(a + b + c + d + e)[s] == Written([a, b, c, d, e][k])[s]
  {
    var all := a + b + c + d + e;
    if k == 0 {
      GaugesOfConcat(b, c); GaugesOfConcat(b + c, d); GaugesOfConcat(b + c + d, e);
      assert all == [] + a + (b + c + d + e);
      SectionLookup([], a, b + c + d + e, s);
    } else if k == 1 {
      GaugesOfConcat(c, d); GaugesOfConcat(c + d, e);
      assert all == a + b + (c + d + e);
      SectionLookup(a, b, c + d + e, s);
    } else if k == 2 {
      GaugesOfConcat(a, b); GaugesOfConcat(d, e);
      assert all == (a + b) + c + (d + e);
      SectionLookup(a + b, c, d + e, s);
    } else if k == 3 {
      GaugesOfConcat(a, b); GaugesOfConcat(a + b, c);
      assert all == (a + b + c) + d + e;
      SectionLookup(a + b + c, d, e, s);
    } else {
      GaugesOfConcat(a, b); GaugesOfConcat(a + b, c); GaugesOfConcat(a + b + c, d);
      assert all == (a + b + c + d) + e + [];
      SectionLookup(a + b + c + d, e, [], s);
    }
  }

  /** Which of the five sections may set gauge `g`. */
  function SectionIndex(g: Gauge): (k: nat)
    ensures k < 5
    ensures k == 0 <==> g == MasterInfo
    ensures k == 1 <==> g in ControllerGauges
    ensures k == 2 <==> g in ExecutionGauges
    ensures k == 3 <==> g == ExecutionInfo
    ensures k == 4 <==> g == QueryDurationSeconds
  {
    match g
    case MasterInfo => 0
    case WorkersActive | WorkersAvailable | WorkersJoined | WorkersReconnected | WorkersDisconnected
      | SlicesProcessed | SlicesFailed | SlicesQueued | NumSlicers => 1
    case CpuRequest | CpuLimit | MemoryRequest | MemoryLimit | CreatedTime | UpdatedTime
      | ExSlicers | ExWorkers | ExStatus => 2
    case ExecutionInfo => 3
    case QueryDurationSeconds => 4
  }

  /** A series of the projection is present, with its value, exactly as its own helper set it. */
  lemma ProjectedBySection(snap: Snapshot, epochSeconds: string -> real, s: Series)
    requires snap.info.Some?
    ensures s in Projected(snap, epochSeconds) <==> s in Written(Section(snap, epochSeconds, s.gauge))
    ensures s in Projected(snap, epochSeconds) ==>
              Projected(snap, epochSeconds)[s] == Written(Section(snap, epochSeconds, s.gauge))[s]
  {
    var g := Globals(snap);
    var m := MasterWrites(snap);
    var c := ControllerStatsWrites(snap.controllers, g);
    var e := ExecutionStatsWrites(snap.executions, g, epochSeconds);
    var i := InfoWrites(Entries(snap), g);
    var t := TailWrites(snap);
    ControllerStatsGauges(snap.controllers, g);
    ExecutionStatsGauges(snap.executions, g, epochSeconds);
    InfoGauges(Entries(snap), g);
    TailGauges(snap);
    assert GaugesOf(m) == {MasterInfo};
    ProjectionParts(snap, epochSeconds);
    var k := SectionIndex(s.gauge);
    assert k != 0 ==> s.gauge !in GaugesOf(m);
    assert k != 1 ==> s.gauge !in GaugesOf(c);
    assert k != 2 ==> s.gauge !in GaugesOf(e);
    assert k != 3 ==> s.gauge !in GaugesOf(i);
    assert k != 4 ==> s.gauge !in GaugesOf(t);
    Lookup5(m, c, e, i, t, k, s);
    assert [m, c, e, i, t][k] == Section(snap, epochSeconds, s.gauge);
    assert Projected(snap, epochSeconds) == Written(m + c + e + i + t);
  }

  lemma GlobalsShape(snap: Snapshot)
    requires snap.info.Some?
    ensures IsGlobal(Globals(snap))
    ensures Globals(snap)["url"] == snap.displayUrl && Globals(snap)["name"] == snap.info.value.name
  {
  }

  /** Two items with the same `ex_id`, `job_id` and job name share their label set, and only they do. */
  lemma ExLabelsInjective(a: (string, string, string), b: (string, string, string), globals: Labels)
    requires IsGlobal(globals)
    ensures ExLabels(a.0, a.1, a.2, globals) == ExLabels(b.0, b.1, b.2, globals) <==> a == b
  {
    if ExLabels(a.0, a.1, a.2, globals) == ExLabels(b.0, b.1, b.2, globals) {
      assert ExLabels(a.0, a.1, a.2, globals)["ex_id"] == a.0;
      assert ExLabels(a.0, a.1, a.2, globals)["job_id"] == a.1;
      assert ExLabels(a.0, a.1, a.2, globals)["job_name"] == a.2;
    }
  }

  function ControllerKey(c: Controller): (string, string, string) {
    (c.exId, c.jobId, c.name)
  }

  function ExecutionKey(e: Execution): (string, string, string) {
    (e.exId, e.jobId, e.name)
  }

  // ---------------------------------------------------------------- what is present

  /**
   * Reference description of the series a projection leaves in the registry, read off
   * the snapshot gauge by gauge rather than off the write sequence.
   */
  predicate SetBySnapshot(snap: Snapshot, epochSeconds: string -> real, s: Series)
    requires snap.info.Some?
  {
    var g := Globals(snap);
    match SectionIndex(s.gauge)
    case 0 => s.labels == InfoLabels(snap.info.value) + g
    case 1 => exists i :: 0 <= i < |snap.controllers| && ControllerSeriesValue(snap.controllers[i], g, s).Some?
    case 2 => exists i :: 0 <= i < |snap.executions| && ExecutionSeriesValue(snap.executions[i], g, epochSeconds, s).Some?
    case 3 => exists k :: 0 <= k < VersionedPrefix(Entries(snap)) && s == InfoSeries(Entries(snap)[k], g)
    case _ => UnversionedImage(Entries(snap)).None? && DurationSeriesValue(snap.queryDuration, g, s).Some?
  }

  /**
   * The projection starts from an empty registry: afterwards it holds exactly the
   * series written from this snapshot, and nothing at all when `info` is undefined.
   */
  lemma ProjectedKeys(snap: Snapshot, epochSeconds: string -> real, s: Series)
    ensures s in Projected(snap, epochSeconds) <==> snap.info.Some? && SetBySnapshot(snap, epochSeconds, s)
  {
    if snap.info.Some? {
      var g := Globals(snap);
      GlobalsShape(snap);
      ProjectedBySection(snap, epochSeconds, s);
      match SectionIndex(s.gauge)
      case 0 =>
        ApplyKeys(map[], MasterWrites(snap));
      case 1 =>
        ControllerStatsKeys(snap.controllers, g, s);
      case 2 =>
        ExecutionStatsKeys(snap.executions, g, epochSeconds, s);
      case 3 =>
        FirstSeenIds(Workers(snap.state));
        InfoWritesSpec(Entries(snap), g, s);
      case _ =>
        if UnversionedImage(Entries(snap)).None? {
          DurationWritesSpec(snap.queryDuration, g, s);
        }
    }
  }

  /** Every series a projection leaves carries exactly the label names its gauge is declared with. */
  lemma ProjectedLabelNames(snap: Snapshot, epochSeconds: string -> real, s: Series)
    requires s in Projected(snap, epochSeconds)
    ensures s.labels.Keys == LabelNames(s.gauge)
  {
    ProjectedKeys(snap, epochSeconds, s);
    SetBySnapshotLabels(snap, epochSeconds, s);
  }

  /** The reference description only holds series labelled as their gauge is declared. */
  lemma SetBySnapshotLabels(snap: Snapshot, epochSeconds: string -> real, s: Series)
    requires snap.info.Some? && SetBySnapshot(snap, epochSeconds, s)
    ensures s.labels.Keys == LabelNames(s.gauge)
  {
    var g := Globals(snap);
    GlobalsShape(snap);
    match SectionIndex(s.gauge)
    case 0 =>
    case 1 =>
      var i :| 0 <= i < |snap.controllers| && ControllerSeriesValue(snap.controllers[i], g, s).Some?;
      ControllerSeriesLabels(snap.controllers[i], g, s);
    case 2 =>
      var i :| 0 <= i < |snap.executions| && ExecutionSeriesValue(snap.executions[i], g, epochSeconds, s).Some?;
      ExecutionSeriesLabels(snap.executions[i], g, epochSeconds, s);
    case 3 =>
    case _ =>
  }

  lemma ControllerSeriesLabels(c: Controller, g: Labels, s: Series)
    requires IsGlobal(g) && ControllerSeriesValue(c, g, s).Some?
    ensures s.labels.Keys == LabelNames(s.gauge)
  {
    ExLabelsKeys(c.exId, c.jobId, c.name, g);
  }

  lemma ExecutionSeriesLabels(e: Execution, g: Labels, epochSeconds: string -> real, s: Series)
    requires IsGlobal(g) && ExecutionSeriesValue(e, g, epochSeconds, s).Some?
    ensures s.labels.Keys == LabelNames(s.gauge)
  {
    ExLabelsKeys(e.exId, e.jobId, e.name, g);
    if s.gauge == ExStatus {
      assert s.labels.Keys == (s.labels - {"status"}).Keys + {"status"};
    }
  }

  // ---------------------------------------------------------------- master info

  /**
   * The master-info gauge holds one series, valued 1, labelled with the info fields and
   * the global labels; the global `name` and `url` win over the info's own keys.
   */
  lemma ProjectedMasterInfo(snap: Snapshot, epochSeconds: string -> real, s: Series)
    requires snap.info.Some? && s.gauge == MasterInfo
    ensures s in Projected(snap, epochSeconds) <==> s.labels == InfoLabels(snap.info.value) + Globals(snap)
    ensures s in Projected(snap, epochSeconds) ==>
              && Projected(snap, epochSeconds)[s] == 1.0
              && s.labels["url"] == snap.displayUrl && s.labels["name"] == snap.info.value.name
              && s.labels["arch"] == snap.info.value.arch
              && s.labels["teraslice_version"] == snap.info.value.terasliceVersion
  {
    MasterLabels(snap.info.value, snap.displayUrl);
    ProjectedBySection(snap, epochSeconds, s);
    ApplyKeys(map[], MasterWrites(snap));
    WrittenDistinct(MasterWrites(snap), 0);
  }

  lemma MasterLabels(info: Info, displayUrl: string)
    ensures var l := InfoLabels(info) + GlobalLabels(displayUrl, info);
            && l["url"] == displayUrl && l["name"] == info.name
            && l["arch"] == info.arch && l["teraslice_version"] == info.terasliceVersion
  {
  }

  // ---------------------------------------------------------------- controllers

  /** Within `generateControllerStats` alone: the last controller with its key keeps its nine gauges. */
  lemma ControllerWritten(cs: seq<Controller>, g: Labels, i: nat, k: nat)
    requires IsGlobal(g) && i < |cs| && k < |ControllerGauges|
    requires forall j :: i < j < |cs| ==> ControllerKey(cs[j]) != ControllerKey(cs[i])
    ensures var s := Series(ControllerGauges[k], ControllerLabels(cs[i], g));
            s in Written(ControllerStatsWrites(cs, g)) &&
            Written(ControllerStatsWrites(cs, g))[s] == ControllerValue(ControllerGauges[k], cs[i])
  {
    var s := Series(ControllerGauges[k], ControllerLabels(cs[i], g));
    forall j | i < j < |cs| ensures ControllerSeriesValue(cs[j], g, s).None? {
      ExLabelsInjective(ControllerKey(cs[j]), ControllerKey(cs[i]), g);
    }
    ControllerStatsLast(cs, g, i, s);
  }

  /**
   * The nine gauges of a controller hold its counters, unless a later controller with
   * the same `ex_id`, `job_id` and name overwrote them.
   */
  lemma ProjectedController(snap: Snapshot, epochSeconds: string -> real, i: nat, k: nat)
    requires snap.info.Some? && i < |snap.controllers| && k < |ControllerGauges|
    requires forall j :: i < j < |snap.controllers| ==> ControllerKey(snap.controllers[j]) != ControllerKey(snap.controllers[i])
    ensures Series(ControllerGauges[k], ControllerLabels(snap.controllers[i], Globals(snap))) in Projected(snap, epochSeconds)
    ensures Projected(snap, epochSeconds)[Series(ControllerGauges[k], ControllerLabels(snap.controllers[i], Globals(snap)))] ==
              ControllerValue(ControllerGauges[k], snap.controllers[i])
  {
    var s := Series(ControllerGauges[k], ControllerLabels(snap.controllers[i], Globals(snap)));
    GlobalsShape(snap);
    ControllerWritten(snap.controllers, Globals(snap), i, k);
    ProjectedBySection(snap, epochSeconds, s);
    assert Section(snap, epochSeconds, s.gauge) == ControllerStatsWrites(snap.controllers, Globals(snap));
  }

  // ---------------------------------------------------------------- executions

  /** No later execution in the snapshot has the same `ex_id`, `job_id` and name. */
  predicate LastWithKey(snap: Snapshot, i: nat)
    requires i < |snap.executions|
  {
    forall j :: i < j < |snap.executions| ==> ExecutionKey(snap.executions[j]) != ExecutionKey(snap.executions[i])
  }

  /** No other execution in the snapshot has the same `ex_id`, `job_id` and name. */
  predicate UniqueExecution(snap: Snapshot, i: nat)
    requires i < |snap.executions|
  {
    forall j :: 0 <= j < |snap.executions| && j != i ==> ExecutionKey(snap.executions[j]) != ExecutionKey(snap.executions[i])
  }

  /** Within `generateExecutionStats` alone: an execution no other one shares its key with keeps its scalar gauges. */
  lemma ExecutionScalarWritten(es: seq<Execution>, g: Labels, epochSeconds: string -> real, i: nat, gauge: Gauge)
    requires IsGlobal(g) && i < |es| && gauge in ExecutionGauges - {ExStatus}
    requires forall j :: 0 <= j < |es| && j != i ==> ExecutionKey(es[j]) != ExecutionKey(es[i])
    ensures var s := Series(gauge, ExecutionLabels(es[i], g));
            && (s in Written(ExecutionStatsWrites(es, g, epochSeconds)) <==> ExecutionValue(gauge, es[i], epochSeconds).Some?)
            && (s in Written(ExecutionStatsWrites(es, g, epochSeconds)) ==>
                  Written(ExecutionStatsWrites(es, g, epochSeconds))[s] == ExecutionValue(gauge, es[i], epochSeconds).value)
  {
    var s := Series(gauge, ExecutionLabels(es[i], g));
    forall j | 0 <= j < |es| && j != i ensures ExecutionSeriesValue(es[j], g, epochSeconds, s).None? {
      ExLabelsInjective(ExecutionKey(es[j]), ExecutionKey(es[i]), g);
      ExLabelsKeys(es[j].exId, es[j].jobId, es[j].name, g);
      assert "status" !in s.labels;
    }
    ExLabelsKeys(es[i].exId, es[i].jobId, es[i].name, g);
    assert !IsStatusSeriesOf(s, ExecutionLabels(es[i], g));
    assert ExecutionSeriesValue(es[i], g, epochSeconds, s) == ExecutionValue(gauge, es[i], epochSeconds);
    ExecutionStatsKeys(es, g, epochSeconds, s);
    if ExecutionValue(gauge, es[i], epochSeconds).Some? {
      ExecutionStatsLast(es, g, epochSeconds, i, s);
    } else {
      assert forall j :: 0 <= j < |es| ==> ExecutionSeriesValue(es[j], g, epochSeconds, s).None?;
    }
  }

  /**
   * A scalar gauge of an execution is present exactly when the reference table
   * `ExecutionValue` gives it a value, and then holds that value: CPU and memory
   * request and limit only for a truthy `cpu` or `memory`, the two timestamps through
   * the date parser, slicers and workers always.
   */
  lemma ProjectedExecutionScalar(snap: Snapshot, epochSeconds: string -> real, i: nat, gauge: Gauge)
    requires snap.info.Some? && i < |snap.executions| && UniqueExecution(snap, i)
    requires gauge in ExecutionGauges - {ExStatus}
    ensures var s := Series(gauge, ExecutionLabels(snap.executions[i], Globals(snap)));
            && (s in Projected(snap, epochSeconds) <==> ExecutionValue(gauge, snap.executions[i], epochSeconds).Some?)
            && (s in Projected(snap, epochSeconds) ==>
                  Projected(snap, epochSeconds)[s] == ExecutionValue(gauge, snap.executions[i], epochSeconds).value)
  {
    var s := Series(gauge, ExecutionLabels(snap.executions[i], Globals(snap)));
    GlobalsShape(snap);
    ExecutionScalarWritten(snap.executions, Globals(snap), epochSeconds, i, gauge);
    ProjectedBySection(snap, epochSeconds, s);
    assert Section(snap, epochSeconds, gauge) == ExecutionStatsWrites(snap.executions, Globals(snap), epochSeconds);
  }

  // ---------------------------------------------------------------- execution status

  /** Within `generateExecutionStats` alone: the last execution with its key keeps its status series. */
  lemma StatusWritten(es: seq<Execution>, g: Labels, epochSeconds: string -> real, i: nat, k: nat)
    requires IsGlobal(g) && i < |es| && k < |StatusList|
    requires forall j :: i < j < |es| ==> ExecutionKey(es[j]) != ExecutionKey(es[i])
    ensures var s := Series(ExStatus, StatusLabels(ExecutionLabels(es[i], g), StatusList[k]));
            && s in Written(ExecutionStatsWrites(es, g, epochSeconds))
            && Written(ExecutionStatsWrites(es, g, epochSeconds))[s] == if StatusList[k] == es[i].status then 1.0 else 0.0
  {
    var l := ExecutionLabels(es[i], g);
    var s := Series(ExStatus, StatusLabels(l, StatusList[k]));
    ExLabelsKeys(es[i].exId, es[i].jobId, es[i].name, g);
    assert s.labels - {"status"} == l;
    assert IsStatusSeriesOf(s, l);
    forall j | i < j < |es| ensures ExecutionSeriesValue(es[j], g, epochSeconds, s).None? {
      ExLabelsInjective(ExecutionKey(es[j]), ExecutionKey(es[i]), g);
    }
    ExecutionStatsLast(es, g, epochSeconds, i, s);
  }

  /**
   * The status series of an execution no later one shares its labels with are one-hot:
   * 1 for its own status, 0 for the twelve others.
   */
  lemma ProjectedStatus(snap: Snapshot, epochSeconds: string -> real, i: nat, k: nat)
    requires snap.info.Some? && i < |snap.executions| && LastWithKey(snap, i) && k < |StatusList|
    ensures var s := Series(ExStatus, StatusLabels(ExecutionLabels(snap.executions[i], Globals(snap)), StatusList[k]));
            && s in Projected(snap, epochSeconds)
            && Projected(snap, epochSeconds)[s] == if StatusList[k] == snap.executions[i].status then 1.0 else 0.0
  {
    var s := Series(ExStatus, StatusLabels(ExecutionLabels(snap.executions[i], Globals(snap)), StatusList[k]));
    GlobalsShape(snap);
    StatusWritten(snap.executions, Globals(snap), epochSeconds, i, k);
    ProjectedBySection(snap, epochSeconds, s);
    assert Section(snap, epochSeconds, s.gauge) == ExecutionStatsWrites(snap.executions, Globals(snap), epochSeconds);
  }

  /** The sum of the status series of the execution labelled `l`, over the statuses `sts`. */
  function StatusTotal(p: Samples, l: Labels, sts: seq<string>): real
    decreases |sts|
  {
    if sts == [] then 0.0
    else
      var s := Series(ExStatus, StatusLabels(l, sts[|sts| - 1]));
      StatusTotal(p, l, sts[..|sts| - 1]) + (if s in p then p[s] else 0.0)
  }

  /** One-hot values over distinct statuses sum to 1 exactly when the own status is among them. */
  lemma {:induction false} OneHotTotal(p: Samples, l: Labels, sts: seq<string>, status: string)
    requires forall j, k :: 0 <= j < k < |sts| ==> sts[j] != sts[k]
    requires forall k :: 0 <= k < |sts| ==>
               && Series(ExStatus, StatusLabels(l, sts[k])) in p
               && p[Series(ExStatus, StatusLabels(l, sts[k]))] == if sts[k] == status then 1.0 else 0.0
    ensures StatusTotal(p, l, sts) == if status in sts then 1.0 else 0.0
    decreases |sts|
  {
    if sts != [] {
      var n := |sts| - 1;
      OneHotTotal(p, l, sts[..n], status);
      assert sts == sts[..n] + [sts[n]];
      if sts[n] == status {
        assert status !in sts[..n];
      }
    }
  }

  /** The status series of an execution sum to 1 when its status is listed, and to 0 otherwise. */
  lemma ProjectedStatusTotal(snap: Snapshot, epochSeconds: string -> real, i: nat)
    requires snap.info.Some? && i < |snap.executions| && LastWithKey(snap, i)
    ensures StatusTotal(Projected(snap, epochSeconds), ExecutionLabels(snap.executions[i], Globals(snap)), StatusList) ==
              if snap.executions[i].status in StatusList then 1.0 else 0.0
  {
    forall k | 0 <= k < |StatusList| {
      ProjectedStatus(snap, epochSeconds, i, k);
    }
    StatusListDistinct();
    OneHotTotal(Projected(snap, epochSeconds), ExecutionLabels(snap.executions[i], Globals(snap)),
                StatusList, snap.executions[i].status);
  }

  /** No status series beyond the thirteen listed ones is ever present. */
  lemma ProjectedStatusListed(snap: Snapshot, epochSeconds: string -> real, s: Series)
    requires s in Projected(snap, epochSeconds) && s.gauge == ExStatus
    ensures "status" in s.labels && s.labels["status"] in StatusList
  {
    ProjectedKeys(snap, epochSeconds, s);
    var i :| 0 <= i < |snap.executions| && ExecutionSeriesValue(snap.executions[i], Globals(snap), epochSeconds, s).Some?;
  }

  // ---------------------------------------------------------------- execution info

  /** The execution-info series are those of the versioned dictionary entries, each valued 1. */
  lemma ProjectedExecutionInfo(snap: Snapshot, epochSeconds: string -> real, s: Series)
    requires snap.info.Some? && s.gauge == ExecutionInfo
    ensures s in Projected(snap, epochSeconds) <==>
              exists k :: 0 <= k < VersionedPrefix(Entries(snap)) && s == InfoSeries(Entries(snap)[k], Globals(snap))
    ensures s in Projected(snap, epochSeconds) ==> Projected(snap, epochSeconds)[s] == 1.0
  {
    GlobalsShape(snap);
    FirstSeenIds(Workers(snap.state));
    InfoWritesSpec(Entries(snap), Globals(snap), s);
    ProjectedBySection(snap, epochSeconds, s);
  }

  /**
   * When no image stops the projection, the first worker carrying an `ex_id` gives that
   * id its execution-info series: its `job_id`, its `image` and the version cut from it.
   */
  lemma ProjectedExecutionInfoOfWorker(snap: Snapshot, epochSeconds: string -> real, k: nat)
    requires snap.info.Some? && ProjectionError(snap).None?
    requires FirstOccurrence(Workers(snap.state), k)
    ensures var w := Workers(snap.state)[k];
            && Version(w.image).Some?
            && var s := Series(ExecutionInfo, ExecutionInfoLabels(StateExecution(w.exId, w.jobId, w.image), Version(w.image).value, Globals(snap)));
               s in Projected(snap, epochSeconds) && Projected(snap, epochSeconds)[s] == 1.0
  {
    var ws := Workers(snap.state);
    var x := StateExecution(ws[k].exId, ws[k].jobId, ws[k].image);
    var entries := Entries(snap);
    FirstSeenFirst(ws, k);
    var m :| 0 <= m < |entries| && entries[m] == x;
    assert VersionedPrefix(entries) == |entries|;
    ProjectedExecutionInfo(snap, epochSeconds, InfoSeries(x, Globals(snap)));
  }

  /** Within the execution-info pass alone: the entry a series was written for. */
  lemma InfoWrittenFor(entries: seq<StateExecution>, g: Labels, s: Series) returns (k: nat)
    requires IsGlobal(g) && DistinctIds(entries) && s in Written(InfoWrites(entries, g))
    ensures k < |entries| && Version(entries[k].image).Some? && s == InfoSeries(entries[k], g)
    ensures "ex_id" in s.labels && s.labels["ex_id"] == entries[k].exId
  {
    InfoWritesSpec(entries, g, s);
    k :| 0 <= k < VersionedPrefix(entries) && s == InfoSeries(entries[k], g);
    InfoSeriesExId(entries[k], g);
  }

  /** Within the execution-info pass alone: one series per id, and only for ids of the dictionary. */
  lemma InfoWrittenUnique(entries: seq<StateExecution>, g: Labels, s1: Series, s2: Series)
    requires IsGlobal(g) && DistinctIds(entries)
    requires s1 in Written(InfoWrites(entries, g)) && s2 in Written(InfoWrites(entries, g))
    ensures "ex_id" in s1.labels && s1.labels["ex_id"] in ExIds(entries)
    ensures "ex_id" in s2.labels && s1.labels["ex_id"] == s2.labels["ex_id"] ==> s1 == s2
  {
    var k1 := InfoWrittenFor(entries, g, s1);
    var k2 := InfoWrittenFor(entries, g, s2);
    assert entries[k1] in entries;
    if s1.labels["ex_id"] == s2.labels["ex_id"] {
      assert k1 == k2;
    }
  }

  /**
   * There is at most one execution-info series per `ex_id`, and only for ids that some
   * worker carries: workers with an empty `ex_id` contribute none.
   */
  lemma ProjectedExecutionInfoUnique(snap: Snapshot, epochSeconds: string -> real, s1: Series, s2: Series)
    requires s1 in Projected(snap, epochSeconds) && s1.gauge == ExecutionInfo
    requires s2 in Projected(snap, epochSeconds) && s2.gauge == ExecutionInfo
    ensures "ex_id" in s1.labels && s1.labels["ex_id"] in NonEmptyIds(Workers(snap.state))
    ensures "ex_id" in s2.labels && s1.labels["ex_id"] == s2.labels["ex_id"] ==> s1 == s2
  {
    assert snap.info.Some?;
    GlobalsShape(snap);
    FirstSeenIds(Workers(snap.state));
    ProjectedBySection(snap, epochSeconds, s1);
    ProjectedBySection(snap, epochSeconds, s2);
    assert Section(snap, epochSeconds, ExecutionInfo) == InfoWrites(Entries(snap), Globals(snap));
    InfoWrittenUnique(Entries(snap), Globals(snap), s1, s2);
  }

  // ---------------------------------------------------------------- errors and durations

  /** The first worker of every `ex_id` has an image the version regex matches. */
  predicate AllVersioned(ws: seq<Worker>) {
    forall k :: 0 <= k < |ws| && FirstOccurrence(ws, k) ==> Version(ws[k].image).Some?
  }

  /**
   * The projection completes exactly when `info` is defined and the first worker of
   * every `ex_id` has an image the version regex matches.
   */
  lemma ProjectionCompletes(snap: Snapshot)
    ensures ProjectionError(snap).None? <==> snap.info.Some? && AllVersioned(Workers(snap.state))
  {
    var ws := Workers(snap.state);
    var entries := Entries(snap);
    if snap.info.Some? {
      if UnversionedImage(entries).None? {
        forall k | FirstOccurrence(ws, k) ensures Version(ws[k].image).Some? {
          FirstSeenFirst(ws, k);
          var m :| 0 <= m < |entries| && entries[m] == StateExecution(ws[k].exId, ws[k].jobId, ws[k].image);
          assert m < VersionedPrefix(entries);
        }
        assert ProjectionError(snap).None?;
      } else {
        var n := VersionedPrefix(entries);
        FirstSeenFrom(ws, entries[n]);
        var k :| FirstOccurrence(ws, k) && entries[n] == StateExecution(ws[k].exId, ws[k].jobId, ws[k].image);
        assert Version(ws[k].image).None?;
        assert ProjectionError(snap) == Some(NoVersionMatch(entries[n].image));
        assert FirstOccurrence(Workers(snap.state), k) && Version(Workers(snap.state)[k].image).None?;
      }
    }
  }

  /**
   * An image without a version match stops the projection: the error names an image some
   * worker carries, and no query-duration series is written.
   */
  lemma ProjectionStopsAtUnversioned(snap: Snapshot, epochSeconds: string -> real, image: string)
    requires ProjectionError(snap) == Some(NoVersionMatch(image))
    ensures Version(image).None?
    ensures exists k :: FirstOccurrence(Workers(snap.state), k) && Workers(snap.state)[k].image == image
    ensures forall s :: s in Projected(snap, epochSeconds) ==> s.gauge != QueryDurationSeconds
  {
    var entries := Entries(snap);
    FirstSeenFrom(Workers(snap.state), entries[VersionedPrefix(entries)]);
    forall s | s in Projected(snap, epochSeconds) ensures s.gauge != QueryDurationSeconds {
      ProjectedKeys(snap, epochSeconds, s);
    }
  }

  /** Reference table: the value the query-duration pass gives a series, if it sets it at all. */
  function DurationSeriesValue(qd: QueryDuration, globals: Labels, s: Series): Option<real> {
    if s.gauge == QueryDurationSeconds && "query_name" in s.labels && s.labels["query_name"] in DurationNames
       && s.labels == DurationLabels(s.labels["query_name"], globals)
    then Some(DurationValue(qd, s.labels["query_name"]))
    else None
  }

  /** The query-duration pass sets one series per query name, as the reference table says. */
  lemma DurationWritesSpec(qd: QueryDuration, globals: Labels, s: Series)
    requires IsGlobal(globals)
    ensures s in Written(DurationWrites(qd, globals)) <==> DurationSeriesValue(qd, globals, s).Some?
    ensures s in Written(DurationWrites(qd, globals)) ==>
              Written(DurationWrites(qd, globals))[s] == DurationSeriesValue(qd, globals, s).value
  {
    var ws := DurationWrites(qd, globals);
    forall k | 0 <= k < |ws| ensures ws[k].series.labels["query_name"] == DurationNames[k] { }
    var v := DurationSeriesValue(qd, globals, s);
    forall k | 0 <= k < |ws| && ws[k].series == s ensures v == Some(ws[k].value) {
      assert s.labels["query_name"] == DurationNames[k];
    }
    if v.Some? {
      var k :| 0 <= k < |ws| && DurationNames[k] == s.labels["query_name"];
      assert ws[k].series == s;
    }
    WrittenByTable(ws, s, v);
  }

  /**
   * A completed projection writes the five query-duration series, each holding the
   * collector's figure unchanged (milliseconds, whatever the gauge's name says).
   */
  lemma ProjectedDurations(snap: Snapshot, epochSeconds: string -> real, k: nat)
    requires snap.info.Some? && ProjectionError(snap).None? && k < |DurationNames|
    ensures var s := Series(QueryDurationSeconds, DurationLabels(DurationNames[k], Globals(snap)));
            s in Projected(snap, epochSeconds) &&
            Projected(snap, epochSeconds)[s] == DurationValue(snap.queryDuration, DurationNames[k])
  {
    var g := Globals(snap);
    GlobalsShape(snap);
    var s := Series(QueryDurationSeconds, DurationLabels(DurationNames[k], g));
    assert s.labels["query_name"] == DurationNames[k];
    DurationWritesSpec(snap.queryDuration, g, s);
    ProjectedBySection(snap, epochSeconds, s);
    assert Section(snap, epochSeconds, s.gauge) == DurationWrites(snap.queryDuration, g);
  }
}
