/**
 * Properties of each helper of src/metrics.ts on its own: the series one
 * controller, one execution or one execution-info pass sets, against the
 * reference tables of MetricsSpec, and the dictionary of first-seen workers.
 */
module MetricsBlocks {
  import opened Wrappers
  import opened Interfaces
  import opened Registry
  import opened ImageVersion
  import opened MetricsSpec

  lemma StatusListDistinct()
    ensures forall j, k :: 0 <= j < k < |StatusList| ==> StatusList[j] != StatusList[k]
  {
  }

  lemma ControllerGaugesDistinct()
    ensures forall j, k :: 0 <= j < k < |ControllerGauges| ==> ControllerGauges[j] != ControllerGauges[k]
  {
  }

  /** The label names of an execution's labels, which never include `status`. */
  lemma ExLabelsKeys(exId: string, jobId: string, jobName: string, globals: Labels)
    requires IsGlobal(globals)
    ensures ExLabels(exId, jobId, jobName, globals).Keys == ExLabelNames
  {
  }

  // ---------------------------------------------------------------- one controller

  /** `parseController` sets exactly the series of the reference table, to the table's values. */
  lemma ControllerBlockSpec(c: Controller, globals: Labels, s: Series)
    ensures s in Written(ControllerWrites(c, globals)) <==> ControllerSeriesValue(c, globals, s).Some?
    ensures s in Written(ControllerWrites(c, globals)) ==>
              Written(ControllerWrites(c, globals))[s] == ControllerSeriesValue(c, globals, s).value
  {
    var ws := ControllerWrites(c, globals);
    ControllerGaugesDistinct();
    assert DistinctSeries(ws);
    ApplyKeys(map[], ws);
    if ControllerSeriesValue(c, globals, s).Some? {
      var k :| 0 <= k < |ControllerGauges| && ControllerGauges[k] == s.gauge;
      assert ws[k].series == s;
      WrittenDistinct(ws, k);
    } else {
      forall w | w in ws ensures w.series != s { }
    }
  }

  /** `generateControllerStats` sets a series iff some controller's table has it. */
  lemma ControllerStatsKeys(cs: seq<Controller>, globals: Labels, s: Series)
    ensures s in Written(ControllerStatsWrites(cs, globals)) <==>
              exists i :: 0 <= i < |cs| && ControllerSeriesValue(cs[i], globals, s).Some?
  {
    FlattenTargets(cs, ControllerBlock(globals), s);
    forall i | 0 <= i < |cs|
      ensures s in Targets(ControllerBlock(globals)(cs[i])) <==> ControllerSeriesValue(cs[i], globals, s).Some?
    {
      ControllerBlockSpec(cs[i], globals, s);
      ApplyKeys(map[], ControllerWrites(cs[i], globals));
    }
  }

  /** A later controller with the same labels overwrites an earlier one: the last one wins. */
  lemma ControllerStatsLast(cs: seq<Controller>, globals: Labels, i: nat, s: Series)
    requires i < |cs| && ControllerSeriesValue(cs[i], globals, s).Some?
    requires forall j :: i < j < |cs| ==> ControllerSeriesValue(cs[j], globals, s).None?
    ensures s in Written(ControllerStatsWrites(cs, globals))
    ensures Written(ControllerStatsWrites(cs, globals))[s] == ControllerSeriesValue(cs[i], globals, s).value
  {
    forall j | 0 <= j < |cs|
      ensures s in Targets(ControllerBlock(globals)(cs[j])) <==> ControllerSeriesValue(cs[j], globals, s).Some?
    {
      ControllerBlockSpec(cs[j], globals, s);
      ApplyKeys(map[], ControllerWrites(cs[j], globals));
    }
    FlattenLast(cs, ControllerBlock(globals), i, s);
    ControllerBlockSpec(cs[i], globals, s);
  }

  lemma ControllerStatsGauges(cs: seq<Controller>, globals: Labels)
    ensures forall g :: g in GaugesOf(ControllerStatsWrites(cs, globals)) ==> g in ControllerGauges
  {
    var gs := set g | g in ControllerGauges;
    forall c | c in cs ensures GaugesOf(ControllerBlock(globals)(c)) <= gs { }
    FlattenGauges(cs, ControllerBlock(globals), gs);
  }

  // ---------------------------------------------------------------- one execution

  /** The status series of one execution: one per listed status, each set once. */
  lemma StatusWritesSpec(status: string, l: Labels, s: Series)
    requires "status" !in l
    ensures DistinctSeries(StatusWrites(status, l))
    ensures s in Targets(StatusWrites(status, l)) <==> IsStatusSeriesOf(s, l)
    ensures forall k :: 0 <= k < |StatusList| ==>
              StatusWrites(status, l)[k].series.labels["status"] == StatusList[k]
  {
    var ws := StatusWrites(status, l);
    StatusListDistinct();
    forall j, k | 0 <= j < k < |ws| ensures ws[j].series != ws[k].series {
      assert ws[j].series.labels["status"] == StatusList[j];
      assert ws[k].series.labels["status"] == StatusList[k];
    }
    forall k | 0 <= k < |ws| ensures IsStatusSeriesOf(ws[k].series, l) {
      assert StatusLabels(l, StatusList[k]) - {"status"} == l;
    }
    if IsStatusSeriesOf(s, l) {
      var st := s.labels["status"];
      var k :| 0 <= k < |StatusList| && StatusList[k] == st;
      assert s.labels == StatusLabels(l, st);
      assert ws[k].series == s;
    }
  }

  /** A write sequence setting each series once realises any table its writes agree with. */
  lemma WrittenByTable(ws: seq<Write>, s: Series, v: Option<real>)
    requires DistinctSeries(ws)
    requires forall k :: 0 <= k < |ws| && ws[k].series == s ==> v == Some(ws[k].value)
    requires v.Some? ==> s in Targets(ws)
    ensures s in Written(ws) <==> v.Some?
    ensures s in Written(ws) ==> Written(ws)[s] == v.value
  {
    ApplyKeys(map[], ws);
    if s in Targets(ws) {
      var k :| 0 <= k < |ws| && ws[k].series == s;
      WrittenDistinct(ws, k);
    }
  }

  /** The gauges of the scalar writes, in order. */
  function ScalarGauges(e: Execution): seq<Gauge> {
    (if Truthy(e.cpu) then [CpuRequest, CpuLimit] else [])
    + (if Truthy(e.memory) then [MemoryRequest, MemoryLimit] else [])
    + [CreatedTime, UpdatedTime, ExSlicers, ExWorkers]
  }

  lemma ScalarWritesShape(e: Execution, l: Labels, epochSeconds: string -> real)
    ensures |ScalarWrites(e, l, epochSeconds)| == |ScalarGauges(e)|
    ensures forall k :: 0 <= k < |ScalarGauges(e)| ==>
              ScalarWrites(e, l, epochSeconds)[k].series == Series(ScalarGauges(e)[k], l) &&
              ExecutionValue(ScalarGauges(e)[k], e, epochSeconds) == Some(ScalarWrites(e, l, epochSeconds)[k].value)
  {
  }

  lemma ScalarGaugesDistinct(e: Execution)
    ensures forall j, k :: 0 <= j < k < |ScalarGauges(e)| ==> ScalarGauges(e)[j] != ScalarGauges(e)[k]
  {
  }

  lemma ScalarGaugesCover(e: Execution, epochSeconds: string -> real, g: Gauge)
    requires ExecutionValue(g, e, epochSeconds).Some?
    ensures g in ScalarGauges(e)
  {
  }

  /** The scalar writes of one execution: distinct gauges, its labels, the table's values. */
  lemma ScalarWritesSpec(e: Execution, l: Labels, epochSeconds: string -> real)
    ensures DistinctSeries(ScalarWrites(e, l, epochSeconds))
    ensures forall w :: w in ScalarWrites(e, l, epochSeconds) ==>
              w.series.labels == l && w.series.gauge != ExStatus &&
              ExecutionValue(w.series.gauge, e, epochSeconds) == Some(w.value)
    ensures forall g :: ExecutionValue(g, e, epochSeconds).Some? ==>
              Write(Series(g, l), ExecutionValue(g, e, epochSeconds).value) in ScalarWrites(e, l, epochSeconds)
  {
    var ws := ScalarWrites(e, l, epochSeconds);
    var gs := ScalarGauges(e);
    ScalarWritesShape(e, l, epochSeconds);
    ScalarGaugesDistinct(e);
    assert forall k :: 0 <= k < |gs| ==> gs[k] != ExStatus;
    forall g | ExecutionValue(g, e, epochSeconds).Some?
      ensures Write(Series(g, l), ExecutionValue(g, e, epochSeconds).value) in ws
    {
      ScalarGaugesCover(e, epochSeconds, g);
      var k :| 0 <= k < |gs| && gs[k] == g;
      assert ws[k] == Write(Series(g, l), ExecutionValue(g, e, epochSeconds).value);
    }
  }

  /** `parseExecution` sets exactly the series of the reference table, to the table's values. */
  lemma ExecutionBlockSpec(e: Execution, globals: Labels, epochSeconds: string -> real, s: Series)
    requires IsGlobal(globals)
    ensures s in Written(ExecutionWrites(e, globals, epochSeconds)) <==>
              ExecutionSeriesValue(e, globals, epochSeconds, s).Some?
    ensures s in Written(ExecutionWrites(e, globals, epochSeconds)) ==>
              Written(ExecutionWrites(e, globals, epochSeconds))[s] == ExecutionSeriesValue(e, globals, epochSeconds, s).value
  {
    var l := ExecutionLabels(e, globals);
    ExLabelsKeys(e.exId, e.jobId, e.name, globals);
    var scalars := ScalarWrites(e, l, epochSeconds);
    var statuses := StatusWrites(e.status, l);
    var ws := scalars + statuses;
    var v := ExecutionSeriesValue(e, globals, epochSeconds, s);
    StatusWritesSpec(e.status, l, s);
    ScalarWritesSpec(e, l, epochSeconds);
    var n := |scalars|;
    forall j, k | 0 <= j < k < |ws| ensures ws[j].series != ws[k].series {
      if k >= n && j < n {
        assert ws[j] in scalars;
        assert ws[k] == statuses[k - n];
      } else if j >= n {
        assert ws[j] == statuses[j - n] && ws[k] == statuses[k - n];
      } else {
        assert ws[j] == scalars[j] && ws[k] == scalars[k];
      }
    }
    forall k | 0 <= k < |ws| && ws[k].series == s ensures v == Some(ws[k].value) {
      if k >= n {
        var st := StatusList[k - n];
        assert ws[k] == statuses[k - n];
        assert s.labels == StatusLabels(l, st);
        assert StatusLabels(l, st) - {"status"} == l;
      } else {
        assert ws[k] in scalars;
      }
    }
    if v.Some? {
      if IsStatusSeriesOf(s, l) {
        var w :| w in statuses && w.series == s;
        assert w in ws;
      } else {
        assert Write(s, ExecutionValue(s.gauge, e, epochSeconds).value) in scalars;
        assert Write(s, ExecutionValue(s.gauge, e, epochSeconds).value) in ws;
      }
    }
    WrittenByTable(ws, s, v);
  }

  /** `generateExecutionStats` sets a series iff some execution's table has it. */
  lemma ExecutionStatsKeys(es: seq<Execution>, globals: Labels, epochSeconds: string -> real, s: Series)
    requires IsGlobal(globals)
    ensures s in Written(ExecutionStatsWrites(es, globals, epochSeconds)) <==>
              exists i :: 0 <= i < |es| && ExecutionSeriesValue(es[i], globals, epochSeconds, s).Some?
  {
    FlattenTargets(es, ExecutionBlock(globals, epochSeconds), s);
    forall i | 0 <= i < |es|
      ensures s in Targets(ExecutionBlock(globals, epochSeconds)(es[i])) <==>
                ExecutionSeriesValue(es[i], globals, epochSeconds, s).Some?
    {
      ExecutionBlockSpec(es[i], globals, epochSeconds, s);
      ApplyKeys(map[], ExecutionWrites(es[i], globals, epochSeconds));
    }
  }

  /** A later execution setting the same series overwrites an earlier one: the last one wins. */
  lemma ExecutionStatsLast(es: seq<Execution>, globals: Labels, epochSeconds: string -> real, i: nat, s: Series)
    requires IsGlobal(globals)
    requires i < |es| && ExecutionSeriesValue(es[i], globals, epochSeconds, s).Some?
    requires forall j :: i < j < |es| ==> ExecutionSeriesValue(es[j], globals, epochSeconds, s).None?
    ensures s in Written(ExecutionStatsWrites(es, globals, epochSeconds))
    ensures Written(ExecutionStatsWrites(es, globals, epochSeconds))[s] ==
              ExecutionSeriesValue(es[i], globals, epochSeconds, s).value
  {
    forall j | 0 <= j < |es|
      ensures s in Targets(ExecutionBlock(globals, epochSeconds)(es[j])) <==>
                ExecutionSeriesValue(es[j], globals, epochSeconds, s).Some?
    {
      ExecutionBlockSpec(es[j], globals, epochSeconds, s);
      ApplyKeys(map[], ExecutionWrites(es[j], globals, epochSeconds));
    }
    FlattenLast(es, ExecutionBlock(globals, epochSeconds), i, s);
    ExecutionBlockSpec(es[i], globals, epochSeconds, s);
  }

  const ExecutionGauges: set<Gauge> :=
    {CpuRequest, CpuLimit, MemoryRequest, MemoryLimit, CreatedTime, UpdatedTime, ExSlicers, ExWorkers, ExStatus}

  lemma ExecutionStatsGauges(es: seq<Execution>, globals: Labels, epochSeconds: string -> real)
    ensures GaugesOf(ExecutionStatsWrites(es, globals, epochSeconds)) <= ExecutionGauges
  {
    forall e | e in es ensures GaugesOf(ExecutionBlock(globals, epochSeconds)(e)) <= ExecutionGauges {
      var ws := ExecutionWrites(e, globals, epochSeconds);
      forall w | w in ws ensures w.series.gauge in ExecutionGauges { }
    }
    FlattenGauges(es, ExecutionBlock(globals, epochSeconds), ExecutionGauges);
  }

  // ---------------------------------------------------------------- execution versions

  predicate DistinctIds(entries: seq<StateExecution>) {
    forall j, k :: 0 <= j < k < |entries| ==> entries[j].exId != entries[k].exId
  }

  function NonEmptyIds(ws: seq<Worker>): set<string> {
    set w | w in ws && w.exId != "" :: w.exId
  }

  /**
   * The dictionary holds one entry per distinct non-empty worker `ex_id`, and no
   * other: workers with an empty `ex_id` are skipped, repeated ids are not added twice.
   */
  lemma {:induction false} FirstSeenIds(ws: seq<Worker>)
    ensures ExIds(FirstSeen(ws)) == NonEmptyIds(ws)
    ensures DistinctIds(FirstSeen(ws))
    decreases |ws|
  {
    if ws != [] {
      var n := |ws| - 1;
      FirstSeenIds(ws[..n]);
      assert ws == ws[..n] + [ws[n]];
      assert NonEmptyIds(ws) == NonEmptyIds(ws[..n]) + (if ws[n].exId != "" then {ws[n].exId} else {});
      var prev := FirstSeen(ws[..n]);
      if ws[n].exId != "" && ws[n].exId !in ExIds(prev) {
        var x := StateExecution(ws[n].exId, ws[n].jobId, ws[n].image);
        assert ExIds(prev + [x]) == ExIds(prev) + {x.exId};
        forall j | 0 <= j < |prev| ensures prev[j].exId != x.exId {
          assert prev[j] in prev;
        }
      }
    }
  }

  /** Worker `k` is the first one carrying its (non-empty) `ex_id`. */
  predicate FirstOccurrence(ws: seq<Worker>, k: int) {
    0 <= k < |ws| && ws[k].exId != "" && forall j :: 0 <= j < k ==> ws[j].exId != ws[k].exId
  }

  /** Every entry of the dictionary comes from the first worker carrying its id. */
  lemma {:induction false} FirstSeenFrom(ws: seq<Worker>, x: StateExecution)
    requires x in FirstSeen(ws)
    ensures exists k :: FirstOccurrence(ws, k) && x == StateExecution(ws[k].exId, ws[k].jobId, ws[k].image)
    decreases |ws|
  {
    var n := |ws| - 1;
    var prev := FirstSeen(ws[..n]);
    if x in prev {
      FirstSeenFrom(ws[..n], x);
      var k :| FirstOccurrence(ws[..n], k) && x == StateExecution(ws[..n][k].exId, ws[..n][k].jobId, ws[..n][k].image);
      assert FirstOccurrence(ws, k);
    } else {
      FirstSeenIds(ws[..n]);
      assert x == StateExecution(ws[n].exId, ws[n].jobId, ws[n].image);
      forall j | 0 <= j < n ensures ws[j].exId != ws[n].exId {
        if ws[j].exId != "" {
          assert ws[j] in ws[..n];
          assert ws[j].exId in NonEmptyIds(ws[..n]);
        }
      }
      assert FirstOccurrence(ws, n);
    }
  }

  /** The first worker carrying an id gives that id its entry: its `job_id` and its `image`. */
  lemma {:induction false} FirstSeenFirst(ws: seq<Worker>, k: nat)
    requires FirstOccurrence(ws, k)
    ensures StateExecution(ws[k].exId, ws[k].jobId, ws[k].image) in FirstSeen(ws)
    decreases |ws|
  {
    var n := |ws| - 1;
    var prev := FirstSeen(ws[..n]);
    if k < n {
      FirstSeenFirst(ws[..n], k);
    } else {
      FirstSeenIds(ws[..n]);
      forall x | x in prev ensures x.exId != ws[k].exId {
        assert x.exId in NonEmptyIds(ws[..n]);
        var w :| w in ws[..n] && w.exId != "" && w.exId == x.exId;
        var j :| 0 <= j < n && ws[..n][j] == w;
      }
    }
  }

  lemma InfoSeriesExId(x: StateExecution, globals: Labels)
    requires IsGlobal(globals) && Version(x.image).Some?
    ensures "ex_id" in InfoSeries(x, globals).labels && InfoSeries(x, globals).labels["ex_id"] == x.exId
  {
  }

  /** The execution-info series, one per versioned entry, each set to 1. */
  lemma InfoWritesSpec(entries: seq<StateExecution>, globals: Labels, s: Series)
    requires IsGlobal(globals) && DistinctIds(entries)
    ensures s in Written(InfoWrites(entries, globals)) <==>
              exists k :: 0 <= k < VersionedPrefix(entries) && s == InfoSeries(entries[k], globals)
    ensures s in Written(InfoWrites(entries, globals)) ==> Written(InfoWrites(entries, globals))[s] == 1.0
  {
    var ws := InfoWrites(entries, globals);
    var n := VersionedPrefix(entries);
    assert |ws| == n;
    forall k | 0 <= k < n ensures ws[k].series == InfoSeries(entries[k], globals) && ws[k].value == 1.0 {
    }
    forall j, k | 0 <= j < k < n ensures ws[j].series != ws[k].series {
      InfoSeriesExId(entries[j], globals);
      InfoSeriesExId(entries[k], globals);
    }
    var found := exists k :: 0 <= k < n && s == InfoSeries(entries[k], globals);
    if found {
      var k :| 0 <= k < n && s == InfoSeries(entries[k], globals);
      assert ws[k].series == s;
    }
    WrittenByTable(ws, s, if found then Some(1.0) else None);
  }
}
