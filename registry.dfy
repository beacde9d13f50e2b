/**
 * Stand-in for the prom-client registry that src/metrics.ts fills: the gauges it
 * declares (src/metrics.ts:21-187), each with its declared label names, and the
 * registry's state as a map from (gauge, label map) to the gauge's value.
 * `Gauge.set` overwrites one key, `Registry.resetMetrics` empties the map.
 *
 * A projection is described as the sequence of writes it performs; `Apply` folds
 * such a sequence into a registry state, and the lemmas below are the algebra of
 * that fold.
 */
module Registry {

  /** A label set; prom-client keys a series by its label names and values, whatever their order. */
  type Labels = map<string, string>

  datatype Gauge =
    | WorkersActive | WorkersAvailable | WorkersJoined | WorkersReconnected | WorkersDisconnected
    | MasterInfo | ExecutionInfo | NumSlicers | QueryDurationSeconds
    | CpuLimit | CpuRequest | MemoryLimit | MemoryRequest | ExStatus
    | SlicesProcessed | SlicesFailed | SlicesQueued
    | CreatedTime | UpdatedTime | ExSlicers | ExWorkers

  const GlobalLabelNames: set<string> := {"url", "name"}
  const ExLabelNames: set<string> := {"ex_id", "job_id", "job_name"} + GlobalLabelNames

  /** The label names each gauge is declared with. */
  function LabelNames(g: Gauge): set<string> {
    match g
    case MasterInfo =>
      {"arch", "clustering_type", "name", "node_version", "platform", "teraslice_version"} + GlobalLabelNames
    case ExecutionInfo => {"ex_id", "job_id", "image", "version"} + GlobalLabelNames
    case QueryDurationSeconds => {"query_name"} + GlobalLabelNames
    case ExStatus => ExLabelNames + {"status"}
    case _ => ExLabelNames
  }

  /** One time series: a gauge and one combination of label values. */
  datatype Series = Series(gauge: Gauge, labels: Labels)

  /** One `gauge.set(labels, value)` call. */
  datatype Write = Write(series: Series, value: real)

  /** The registry's content: the value of every series set since the last reset. */
  type Samples = map<Series, real>

  /** The state reached from `m` by performing the writes `ws` in order. */
  function Apply(m: Samples, ws: seq<Write>): Samples
    decreases |ws|
  {
    if ws == [] then m
    else
      var w := ws[|ws| - 1];
      Apply(m, ws[..|ws| - 1])[w.series := w.value]
  }

  /** The state reached from an empty registry. */
  function Written(ws: seq<Write>): Samples {
    Apply(map[], ws)
  }

  /** The series a write sequence touches. */
  function Targets(ws: seq<Write>): set<Series> {
    set w | w in ws :: w.series
  }

  /** The gauges a write sequence touches. */
  function GaugesOf(ws: seq<Write>): set<Gauge> {
    set w | w in ws :: w.series.gauge
  }

  /** Performing `a` then `b` is performing `a + b`. */
  lemma {:induction false} ApplyConcat(m: Samples, a: seq<Write>, b: seq<Write>)
    ensures Apply(m, a + b) == Apply(Apply(m, a), b)
    decreases |b|
  {
    if b == [] {
      assert a + b == a;
    } else {
      var n := |b| - 1;
      assert (a + b)[..|a + b| - 1] == a + b[..n];
      assert (a + b)[|a + b| - 1] == b[n];
      ApplyConcat(m, a, b[..n]);
    }
  }

  /** A write sequence overrides the keys it touches and keeps every other key of the start state. */
  lemma {:induction false} ApplyIsUnion(m: Samples, ws: seq<Write>)
    ensures Apply(m, ws) == m + Written(ws)
    decreases |ws|
  {
    if ws != [] {
      ApplyIsUnion(m, ws[..|ws| - 1]);
    }
  }

  /** The keys after a write sequence are the start keys plus the touched series. */
  lemma {:induction false} ApplyKeys(m: Samples, ws: seq<Write>)
    ensures Apply(m, ws).Keys == m.Keys + Targets(ws)
    decreases |ws|
  {
    if ws != [] {
      var n := |ws| - 1;
      ApplyKeys(m, ws[..n]);
      assert ws == ws[..n] + [ws[n]];
      assert Targets(ws) == Targets(ws[..n]) + {ws[n].series};
    }
  }

  /** The value of a series is the one its last write gave it. */
  lemma {:induction false} ApplyLast(m: Samples, ws: seq<Write>, k: nat)
    requires k < |ws|
    requires forall j :: k < j < |ws| ==> ws[j].series != ws[k].series
    ensures ws[k].series in Apply(m, ws) && Apply(m, ws)[ws[k].series] == ws[k].value
    decreases |ws|
  {
    if k < |ws| - 1 {
      ApplyLast(m, ws[..|ws| - 1], k);
    }
  }

  /** No two writes of the sequence touch the same series. */
  predicate DistinctSeries(ws: seq<Write>) {
    forall j, k :: 0 <= j < k < |ws| ==> ws[j].series != ws[k].series
  }

  /** When every write touches its own series, each series holds the value of its one write. */
  lemma WrittenDistinct(ws: seq<Write>, k: nat)
    requires DistinctSeries(ws) && k < |ws|
    ensures ws[k].series in Written(ws) && Written(ws)[ws[k].series] == ws[k].value
  {
    ApplyLast(map[], ws, k);
  }

  lemma GaugesOfConcat(a: seq<Write>, b: seq<Write>)
    ensures GaugesOf(a + b) == GaugesOf(a) + GaugesOf(b)
  {
    forall g | g in GaugesOf(a + b) ensures g in GaugesOf(a) + GaugesOf(b) {
      var w :| w in a + b && w.series.gauge == g;
      if w in a { assert g in GaugesOf(a); } else { assert w in b; assert g in GaugesOf(b); }
    }
    forall g | g in GaugesOf(a) + GaugesOf(b) ensures g in GaugesOf(a + b) {
      if g in GaugesOf(a) {
        var w :| w in a && w.series.gauge == g;
        assert w in a + b;
      } else {
        var w :| w in b && w.series.gauge == g;
        assert w in a + b;
      }
    }
  }

  /** Writing three sections in turn: each later section overrides the earlier ones. */
  lemma WrittenConcat3(a: seq<Write>, b: seq<Write>, c: seq<Write>)
    ensures Written(a + b + c) == Written(a) + Written(b) + Written(c)
  {
    ApplyConcat(map[], a + b, c);
    ApplyConcat(map[], a, b);
    ApplyIsUnion(Written(a + b), c);
    ApplyIsUnion(Written(a), b);
  }

  /**
   * A series of a gauge that only the middle section writes is present, and has the
   * value, exactly as in that section alone.
   */
  lemma SectionLookup(a: seq<Write>, b: seq<Write>, c: seq<Write>, s: Series)
    requires s.gauge !in GaugesOf(a) && s.gauge !in GaugesOf(c)
    ensures s in Written(a + b + c) <==> s in Written(b)
    ensures s in Written(b) ==> Written(a + b + c)[s] == Written(b)[s]
  {
    WrittenConcat3(a, b, c);
    ApplyKeys(map[], a);
    ApplyKeys(map[], c);
    assert s !in Targets(a) && s !in Targets(c);
  }

  /** The writes of a sequence of items, block after block. */
  function Flatten<T>(items: seq<T>, block: T -> seq<Write>): seq<Write>
    decreases |items|
  {
    if items == [] then []
    else Flatten(items[..|items| - 1], block) + block(items[|items| - 1])
  }

  /** One more item: its block follows the blocks of the items before it. */
  lemma FlattenSnoc<T>(items: seq<T>, block: T -> seq<Write>, k: nat)
    requires k < |items|
    ensures Flatten(items[..k + 1], block) == Flatten(items[..k], block) + block(items[k])
  {
    assert items[..k + 1][..k] == items[..k];
  }

  /** The series written for a sequence of items are exactly those written by some item's block. */
  lemma {:induction false} FlattenTargets<T>(items: seq<T>, block: T -> seq<Write>, s: Series)
    ensures s in Written(Flatten(items, block)) <==>
              exists i :: 0 <= i < |items| && s in Targets(block(items[i]))
    decreases |items|
  {
    ApplyKeys(map[], Flatten(items, block));
    if items != [] {
      var n := |items| - 1;
      FlattenTargets(items[..n], block, s);
      ApplyKeys(map[], Flatten(items[..n], block));
      ApplyKeys(map[], block(items[n]));
      WrittenConcat3([], Flatten(items[..n], block), block(items[n]));
      assert [] + Flatten(items[..n], block) + block(items[n]) == Flatten(items, block);
      if s in Targets(block(items[n])) {
        assert 0 <= n < |items| && s in Targets(block(items[n]));
      } else if s in Written(Flatten(items, block)) {
        var i :| 0 <= i < n && s in Targets(block(items[..n][i]));
        assert items[..n][i] == items[i];
      } else {
        forall i | 0 <= i < |items| ensures s !in Targets(block(items[i])) {
          if i < n {
            assert items[..n][i] == items[i];
          }
        }
      }
    }
  }

  /**
   * When item `i` is the last one whose block writes series `s`, the value of `s`
   * is the one `i`'s block gave it.
   */
  lemma {:induction false} FlattenLast<T>(items: seq<T>, block: T -> seq<Write>, i: nat, s: Series)
    requires i < |items| && s in Targets(block(items[i]))
    requires forall j :: i < j < |items| ==> s !in Targets(block(items[j]))
    ensures s in Written(block(items[i])) && s in Written(Flatten(items, block))
    ensures Written(Flatten(items, block))[s] == Written(block(items[i]))[s]
    decreases |items|
  {
    ApplyKeys(map[], block(items[i]));
    var n := |items| - 1;
    WrittenConcat3([], Flatten(items[..n], block), block(items[n]));
    assert [] + Flatten(items[..n], block) + block(items[n]) == Flatten(items, block);
    ApplyKeys(map[], block(items[n]));
    if i < n {
      assert items[..n][i] == items[i];
      forall j | i < j < |items[..n]| ensures s !in Targets(block(items[..n][j])) {
        assert items[..n][j] == items[j];
      }
      FlattenLast(items[..n], block, i, s);
    }
  }

  /** The gauges a sequence of blocks writes, when every block stays within `gs`. */
  lemma {:induction false} FlattenGauges<T>(items: seq<T>, block: T -> seq<Write>, gs: set<Gauge>)
    requires forall x :: x in items ==> GaugesOf(block(x)) <= gs
    ensures GaugesOf(Flatten(items, block)) <= gs
    decreases |items|
  {
    if items != [] {
      var n := |items| - 1;
      FlattenGauges(items[..n], block, gs);
      assert items[n] in items;
      var a, b := Flatten(items[..n], block), block(items[n]);
      forall w: Write | w in a + b ensures w.series.gauge in gs {
        if w in a { assert w.series.gauge in GaugesOf(a); } else { assert w in b; assert w.series.gauge in GaugesOf(b); }
      }
    }
  }

  /** Performing one more write is one map update. */
  lemma ApplySnoc(m: Samples, ws: seq<Write>, w: Write)
    ensures Apply(m, ws + [w]) == Apply(m, ws)[w.series := w.value]
  {
    assert (ws + [w])[..|ws|] == ws;
  }

  /**
   * The process-wide registry the projection writes into, held as the writes performed
   * since it was created or last reset; `Contents()` is the map those writes leave.
   */
  class Registry {
    var writes: seq<Write>

    /** Every series the registry holds, with its value. */
    function Contents(): Samples
      reads this
    {
      Written(writes)
    }

    constructor ()
      ensures writes == [] && Contents() == map[]
    {
      writes := [];
    }

    /**
     * `gauge.set(labels, value)`: one more write, which overwrites that one series and
     * leaves every other one alone.
     */
    method Set(g: Gauge, labels: Labels, value: real)
      modifies this
      ensures writes == old(writes) + [Write(Series(g, labels), value)]
      ensures Contents() == old(Contents())[Series(g, labels) := value]
    {
      ApplySnoc(map[], writes, Write(Series(g, labels), value));
      writes := writes + [Write(Series(g, labels), value)];
    }

    /** `resetMetrics()`: forget every series of every gauge. */
    method ResetMetrics()
      modifies this
      ensures writes == [] && Contents() == map[]
    {
      writes := [];
    }
  }
}
