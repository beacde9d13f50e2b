/**
 * The snapshot collector of src/teraslice-stats.ts: class `TerasliceStats`, which
 * asks the cluster master's REST API for its info, jobs, controllers and cluster
 * state, then for the detail of every execution a controller runs, ten at a time.
 *
 * The HTTP client is replaced by a `Cluster` value: what the master answers to each
 * request of one update. A request the client itself fails (network error, bad JSON,
 * an error status the client throws on) is `Rejected`; one it resolves is a `Reply`
 * with its status code, its body (`None` when the body is falsy) and the total time
 * the client measured. `Promise.all` is modelled as issuing every request of a batch
 * in order and collecting the answers in order; the ghost `trace` records the
 * requests issued and the pauses taken.
 */
module Stats {
  import opened Wrappers
  import opened Interfaces

  /** What the HTTP client makes of one request. */
  datatype Response<T> = Reply(statusCode: int, body: Option<T>, totalMs: real) | Rejected(detail: string)

  /** A request URL: the API path resolved against the collector's base URL. */
  datatype Url = Url(base: string, path: string)

  /** Why a request failed: a resolved reply that is not a 200 with a body, or a client error. */
  datatype Cause = StatusError(url: Url, statusCode: int) | ClientError(detail: string)

  /** The error `getTerasliceApi` throws: `Error getting <url>: <cause>`. */
  datatype ApiError = ApiError(url: Url, cause: Cause)

  /** What `getTerasliceApi` returns: the body and the request's duration in ms. */
  datatype ApiReply<T> = ApiReply(data: T, queryDuration: real)

  /** The error `update` throws: `Error caught on run() <baseUrl>: <error>`. */
  datatype UpdateError = RunError(baseUrl: string, error: ApiError)

  /** The master's answers during one update; the execution detail is a function of `ex_id`. */
  datatype Cluster = Cluster(
    root: Response<Info>,
    jobs: Response<seq<Job>>,
    controllers: Response<seq<Controller>>,
    state: Response<ClusterState>,
    execution: string -> Response<Execution>)

  /** A step of the collector's observable behaviour. */
  datatype Event = Get(path: string) | Pause(ms: int)

  const QuerySize := 200
  const MaxConcurrency := 10
  const QueryDelayMs := 25

  const RootPath := "/"
  const JobsPath := "/v1/jobs?size=200"
  const ControllersPath := "/v1/cluster/controllers"
  const StatePath := "/v1/cluster/state"

  function ExecutionPath(exId: string): string {
    "/v1/ex/" + exId
  }

  // ---------------------------------------------------------------- one request

  /**
   * `getTerasliceApi(path)` on the client's response: the body and duration of a 200
   * reply with a truthy body; otherwise an error naming the URL.
   */
  function GetTerasliceApi<T>(baseUrl: string, path: string, response: Response<T>): (r: Result<ApiReply<T>, ApiError>)
    ensures r.Ok? <==> response.Reply? && response.statusCode == 200 && response.body.Some?
    ensures r.Ok? ==> r.value.data == response.body.value && r.value.queryDuration == response.totalMs
    ensures r.Err? ==> r.error.url == Url(baseUrl, path)
    ensures r.Err? && response.Reply? ==> r.error.cause == StatusError(Url(baseUrl, path), response.statusCode)
    ensures response.Rejected? ==> r.error.cause == ClientError(response.detail)
  {
    var url := Url(baseUrl, path);
    match response
    case Rejected(detail) => Err(ApiError(url, ClientError(detail)))
    case Reply(status, body, total) =>
      if status == 200 && body.Some? then Ok(ApiReply(body.value, total))
      else Err(ApiError(url, StatusError(url, status)))
  }

  /** The detail request for the execution a controller runs. */
  function FetchExecution(baseUrl: string, execution: string -> Response<Execution>, c: Controller): Result<ApiReply<Execution>, ApiError> {
    GetTerasliceApi(baseUrl, ExecutionPath(c.exId), execution(c.exId))
  }

  // ---------------------------------------------------------------- Promise.all over detail requests

  /**
   * `Promise.all` over the detail requests of `cs`: every body in order, or the error
   * of the first request (in order) that fails.
   */
  function FetchAll(baseUrl: string, execution: string -> Response<Execution>, cs: seq<Controller>): Result<seq<Execution>, ApiError>
    decreases |cs|
  {
    if cs == [] then Ok([])
    else match FetchAll(baseUrl, execution, cs[..|cs| - 1])
      case Err(e) => Err(e)
      case Ok(xs) =>
        match FetchExecution(baseUrl, execution, cs[|cs| - 1])
        case Err(e) => Err(e)
        case Ok(r) => Ok(xs + [r.data])
  }

  /** The index of the first controller whose detail request fails; `|cs|` when none does. */
  function FirstFailure(baseUrl: string, execution: string -> Response<Execution>, cs: seq<Controller>): (f: nat)
    ensures f <= |cs|
    ensures forall k :: 0 <= k < f ==> FetchExecution(baseUrl, execution, cs[k]).Ok?
    ensures f < |cs| ==> FetchExecution(baseUrl, execution, cs[f]).Err?
    decreases |cs|
  {
    if cs == [] then 0
    else if FetchExecution(baseUrl, execution, cs[0]).Err? then 0
    else
      var f := 1 + FirstFailure(baseUrl, execution, cs[1..]);
      assert forall k :: 1 <= k < f ==> cs[k] == cs[1..][k - 1];
      f
  }

  /**
   * The batch succeeds exactly when every request does; it then holds one detail per
   * controller, in controller order; otherwise it fails with the first failing request's error.
   */
  lemma {:induction false} FetchAllSpec(baseUrl: string, execution: string -> Response<Execution>, cs: seq<Controller>)
    ensures FetchAll(baseUrl, execution, cs).Ok? <==> FirstFailure(baseUrl, execution, cs) == |cs|
    ensures FetchAll(baseUrl, execution, cs).Ok? ==>
              && |FetchAll(baseUrl, execution, cs).value| == |cs|
              && forall k :: 0 <= k < |cs| ==>
                   FetchAll(baseUrl, execution, cs).value[k] == FetchExecution(baseUrl, execution, cs[k]).value.data
    ensures FetchAll(baseUrl, execution, cs).Err? ==>
              FetchAll(baseUrl, execution, cs).error ==
                FetchExecution(baseUrl, execution, cs[FirstFailure(baseUrl, execution, cs)]).error
    decreases |cs|
  {
    if cs != [] {
      var n := |cs| - 1;
      var prefix := cs[..n];
      FetchAllSpec(baseUrl, execution, prefix);
      FirstFailurePrefix(baseUrl, execution, cs, n);
    }
  }

  /** The failure half of `FetchAllSpec`. */
  lemma FetchAllFails(baseUrl: string, execution: string -> Response<Execution>, cs: seq<Controller>)
    ensures FetchAll(baseUrl, execution, cs).Err? <==> FirstFailure(baseUrl, execution, cs) < |cs|
    ensures FetchAll(baseUrl, execution, cs).Err? ==>
              FetchAll(baseUrl, execution, cs).error ==
                FetchExecution(baseUrl, execution, cs[FirstFailure(baseUrl, execution, cs)]).error
  {
    FetchAllSpec(baseUrl, execution, cs);
  }

  /** `FirstFailure` is the one index with every request before it succeeding and its own failing. */
  lemma {:induction false} FirstFailureUnique(baseUrl: string, execution: string -> Response<Execution>, cs: seq<Controller>, x: nat)
    requires x <= |cs|
    requires forall k :: 0 <= k < x ==> FetchExecution(baseUrl, execution, cs[k]).Ok?
    requires x < |cs| ==> FetchExecution(baseUrl, execution, cs[x]).Err?
    ensures FirstFailure(baseUrl, execution, cs) == x
    decreases |cs|
  {
    if cs != [] && FetchExecution(baseUrl, execution, cs[0]).Ok? {
      assert x >= 1;
      forall k | 0 <= k < x - 1 ensures FetchExecution(baseUrl, execution, cs[1..][k]).Ok? {
        assert cs[1..][k] == cs[k + 1];
      }
      FirstFailureUnique(baseUrl, execution, cs[1..], x - 1);
    }
  }

  /** The first failure of a prefix is the first failure of the whole, cut at the prefix's end. */
  lemma FirstFailurePrefix(baseUrl: string, execution: string -> Response<Execution>, cs: seq<Controller>, n: nat)
    requires n <= |cs|
    ensures FirstFailure(baseUrl, execution, cs[..n]) ==
              if FirstFailure(baseUrl, execution, cs) < n then FirstFailure(baseUrl, execution, cs) else n
  {
    var f := FirstFailure(baseUrl, execution, cs);
    var x := if f < n then f else n;
    forall k | 0 <= k < x ensures FetchExecution(baseUrl, execution, cs[..n][k]).Ok? {
      assert cs[..n][k] == cs[k];
    }
    FirstFailureUnique(baseUrl, execution, cs[..n], x);
  }

  /** Batches compose: the batch over `a + b` is the batch over `a`, then the one over `b`. */
  lemma {:induction false} FetchAllConcat(baseUrl: string, execution: string -> Response<Execution>, a: seq<Controller>, b: seq<Controller>)
    ensures FetchAll(baseUrl, execution, a + b) ==
              match FetchAll(baseUrl, execution, a)
              case Err(e) => Err(e)
              case Ok(xs) =>
                match FetchAll(baseUrl, execution, b)
                case Err(e) => Err(e)
                case Ok(ys) => Ok(xs + ys)
    decreases |b|
  {
    if b == [] {
      assert a + b == a;
      match FetchAll(baseUrl, execution, a)
      case Err(_) =>
      case Ok(xs) => assert xs + [] == xs;
    } else {
      var n := |b| - 1;
      assert (a + b)[..|a + b| - 1] == a + b[..n];
      assert (a + b)[|a + b| - 1] == b[n];
      FetchAllConcat(baseUrl, execution, a, b[..n]);
      match FetchAll(baseUrl, execution, a)
      case Err(_) =>
      case Ok(xs) =>
        match FetchAll(baseUrl, execution, b[..n])
        case Err(_) =>
        case Ok(ys) =>
          match FetchExecution(baseUrl, execution, b[n])
          case Err(_) =>
          case Ok(r) => assert xs + ys + [r.data] == xs + (ys + [r.data]);
    }
  }

  // ---------------------------------------------------------------- chunks of ten

  /** How many chunks of `MaxConcurrency` the loop `for (i = 0; i < n; i += 10)` runs. */
  function NumChunks(n: nat): nat {
    (n + MaxConcurrency - 1) / MaxConcurrency
  }

  /** How many of `n` controllers the first `k` chunks hold: `min(10k, n)`. */
  function Covered(n: nat, k: nat): nat {
    if MaxConcurrency * k < n then MaxConcurrency * k else n
  }

  function ChunkEnd(n: nat, j: nat): nat {
    Covered(n, j + 1)
  }

  /** `controllers.slice(10 * j, 10 * j + 10)`. */
  function Chunk<T>(xs: seq<T>, j: nat): seq<T>
    requires j < NumChunks(|xs|)
  {
    xs[MaxConcurrency * j..ChunkEnd(|xs|, j)]
  }

  /** There are ceil(n / 10) chunks; each holds between one and ten controllers. */
  lemma ChunkSizes<T>(xs: seq<T>)
    ensures |xs| == 0 ==> NumChunks(|xs|) == 0
    ensures |xs| > 0 ==> MaxConcurrency * (NumChunks(|xs|) - 1) < |xs| <= MaxConcurrency * NumChunks(|xs|)
    ensures forall j :: 0 <= j < NumChunks(|xs|) ==> 1 <= |Chunk(xs, j)| <= MaxConcurrency
  {
  }

  /** Every index lies in exactly one chunk, chunk `i / 10`. */
  lemma ChunksCover(n: nat, i: nat)
    requires i < n
    ensures i / MaxConcurrency < NumChunks(n)
    ensures MaxConcurrency * (i / MaxConcurrency) <= i < ChunkEnd(n, i / MaxConcurrency)
    ensures forall j :: MaxConcurrency * j <= i < ChunkEnd(n, j) ==> j == i / MaxConcurrency
  {
  }

  /** The chunks before chunk `k`, joined, are the first `min(10k, n)` items. */
  lemma ChunksJoin<T>(xs: seq<T>, k: nat)
    requires k < NumChunks(|xs|)
    ensures xs[..MaxConcurrency * k] + Chunk(xs, k) == xs[..ChunkEnd(|xs|, k)]
  {
  }

  /** The requests of one chunk, in order. */
  function Gets(cs: seq<Controller>): (es: seq<Event>)
    ensures |es| == |cs|
    ensures forall k :: 0 <= k < |cs| ==> es[k] == Get(ExecutionPath(cs[k].exId))
    decreases |cs|
  {
    if cs == [] then [] else Gets(cs[..|cs| - 1]) + [Get(ExecutionPath(cs[|cs| - 1].exId))]
  }

  /** The events of the first `k` chunks when each succeeds: its requests, then a pause. */
  function ChunkTraces(cs: seq<Controller>, k: nat): seq<Event>
    requires k <= NumChunks(|cs|)
  {
    if k == 0 then [] else ChunkTraces(cs, k - 1) + Gets(Chunk(cs, k - 1)) + [Pause(QueryDelayMs)]
  }

  /** The requests a trace issues, in order. */
  function Requests(t: seq<Event>): seq<string>
    decreases |t|
  {
    if t == [] then []
    else Requests(t[..|t| - 1]) + (if t[|t| - 1].Get? then [t[|t| - 1].path] else [])
  }

  function Pauses(t: seq<Event>): nat
    decreases |t|
  {
    if t == [] then 0 else Pauses(t[..|t| - 1]) + (if t[|t| - 1].Pause? then 1 else 0)
  }

  function Paths(cs: seq<Controller>): seq<string>
    decreases |cs|
  {
    if cs == [] then [] else Paths(cs[..|cs| - 1]) + [ExecutionPath(cs[|cs| - 1].exId)]
  }

  lemma {:induction false} RequestsConcat(a: seq<Event>, b: seq<Event>)
    ensures Requests(a + b) == Requests(a) + Requests(b)
    ensures Pauses(a + b) == Pauses(a) + Pauses(b)
    decreases |b|
  {
    if b == [] {
      assert a + b == a;
    } else {
      var n := |b| - 1;
      assert (a + b)[..|a + b| - 1] == a + b[..n];
      RequestsConcat(a, b[..n]);
    }
  }

  lemma {:induction false} GetsRequests(cs: seq<Controller>)
    ensures Requests(Gets(cs)) == Paths(cs) && Pauses(Gets(cs)) == 0
    decreases |cs|
  {
    if cs != [] {
      var n := |cs| - 1;
      GetsRequests(cs[..n]);
      RequestsConcat(Gets(cs[..n]), [Get(ExecutionPath(cs[n].exId))]);
    }
  }

  lemma {:induction false} PathsConcat(a: seq<Controller>, b: seq<Controller>)
    ensures Paths(a + b) == Paths(a) + Paths(b)
    decreases |b|
  {
    if b == [] {
      assert a + b == a;
    } else {
      var n := |b| - 1;
      assert (a + b)[..|a + b| - 1] == a + b[..n];
      PathsConcat(a, b[..n]);
    }
  }

  /**
   * After `k` successful chunks the collector has requested the detail of the first
   * `min(10k, n)` controllers, once each and in order, and paused once after every
   * chunk, the last one included.
   */
  lemma {:induction false} ChunkTracesSpec(cs: seq<Controller>, k: nat)
    requires k <= NumChunks(|cs|)
    ensures Requests(ChunkTraces(cs, k)) == Paths(cs[..Covered(|cs|, k)])
    ensures Pauses(ChunkTraces(cs, k)) == k
    ensures k > 0 ==> ChunkTraces(cs, k)[|ChunkTraces(cs, k)| - 1] == Pause(QueryDelayMs)
  {
    if k > 0 {
      var prev := ChunkTraces(cs, k - 1);
      var c := Chunk(cs, k - 1);
      ChunkTracesSpec(cs, k - 1);
      RequestsConcat(prev + Gets(c), [Pause(QueryDelayMs)]);
      RequestsConcat(prev, Gets(c));
      GetsRequests(c);
      assert Requests([Pause(QueryDelayMs)]) == [] && Pauses([Pause(QueryDelayMs)]) == 1;
      ChunksJoin(cs, k - 1);
      assert Covered(|cs|, k - 1) == MaxConcurrency * (k - 1);
      PathsConcat(cs[..MaxConcurrency * (k - 1)], c);
    }
  }

  // ---------------------------------------------------------------- timing

  /** `Math.round(ns / 1e6)`: elapsed nanoseconds to the nearest millisecond, halves up. */
  function RoundMs(ns: nat): nat {
    (ns + 500000) / 1000000
  }

  lemma RoundMsNearest(ns: nat)
    ensures RoundMs(ns) * 1000000 <= ns + 500000 < RoundMs(ns) * 1000000 + 1000000
  {
  }

  // ---------------------------------------------------------------- the four initial requests

  /** The results of the four initial requests, issued together. */
  datatype Initial = Initial(
    info: ApiReply<Info>,
    jobs: ApiReply<seq<Job>>,
    controllers: ApiReply<seq<Controller>>,
    state: ApiReply<ClusterState>)

  const InitialGets: seq<Event> := [Get(RootPath), Get(JobsPath), Get(ControllersPath), Get(StatePath)]

  /**
   * The state of the chunked loop after its first `j` passes: the details of the first
   * `min(10j, n)` controllers, after those chunks' requests and pauses.
   */
  ghost predicate ChunksDone(baseUrl: string, execution: string -> Response<Execution>, cs: seq<Controller>, j: nat,
                             done: seq<Execution>, t0: seq<Event>, t: seq<Event>)
  {
    && j <= NumChunks(|cs|)
    && FetchAll(baseUrl, execution, cs[..Covered(|cs|, j)]) == Ok(done)
    && t == t0 + ChunkTraces(cs, j)
  }

  /**
   * The outcome of the chunked loop when every detail request succeeds: the details of
   * all controllers in order, after every chunk's requests and pause.
   */
  ghost predicate ChunksFetched(baseUrl: string, execution: string -> Response<Execution>, cs: seq<Controller>,
                                done: seq<Execution>, t0: seq<Event>, t: seq<Event>)
  {
    && FetchAll(baseUrl, execution, cs) == Ok(done)
    && t == t0 + ChunkTraces(cs, NumChunks(|cs|))
  }

  /**
   * The outcome of the chunked loop when a detail request fails with `e`: the loop stops in
   * the chunk of the first failing controller, keeping the details of the chunks before it;
   * that chunk's requests are all issued and no pause follows.
   */
  ghost predicate ChunksStopped(baseUrl: string, execution: string -> Response<Execution>, cs: seq<Controller>,
                                done: seq<Execution>, t0: seq<Event>, t: seq<Event>, e: ApiError)
  {
    var all := FetchAll(baseUrl, execution, cs);
    var j := FirstFailure(baseUrl, execution, cs) / MaxConcurrency;
    && all == Err(e)
    && j < NumChunks(|cs|)
    && FetchAll(baseUrl, execution, cs[..MaxConcurrency * j]) == Ok(done)
    && t == t0 + ChunkTraces(cs, j) + Gets(Chunk(cs, j))
  }

  /** `Promise.all` over the four initial requests: all four results, or the first error in order. */
  function FetchInitial(baseUrl: string, cluster: Cluster): (r: Result<Initial, ApiError>)
    ensures r.Ok? <==>
              && GetTerasliceApi(baseUrl, RootPath, cluster.root).Ok?
              && GetTerasliceApi(baseUrl, JobsPath, cluster.jobs).Ok?
              && GetTerasliceApi(baseUrl, ControllersPath, cluster.controllers).Ok?
              && GetTerasliceApi(baseUrl, StatePath, cluster.state).Ok?
    ensures r.Err? ==> r.error.url.base == baseUrl && r.error.url.path in {RootPath, JobsPath, ControllersPath, StatePath}
  {
    match GetTerasliceApi(baseUrl, RootPath, cluster.root)
    case Err(e) => Err(e)
    case Ok(info) =>
      match GetTerasliceApi(baseUrl, JobsPath, cluster.jobs)
      case Err(e) => Err(e)
      case Ok(jobs) =>
        match GetTerasliceApi(baseUrl, ControllersPath, cluster.controllers)
        case Err(e) => Err(e)
        case Ok(controllers) =>
          match GetTerasliceApi(baseUrl, StatePath, cluster.state)
          case Err(e) => Err(e)
          case Ok(state) => Ok(Initial(info, jobs, controllers, state))
  }

  const ZeroDurations := QueryDuration(0.0, 0.0, 0.0, 0.0, 0.0)

  // ---------------------------------------------------------------- the collector

  class TerasliceStats {
    const baseUrl: string
    var controllers: seq<Controller>
    var executions: seq<Execution>
    /** `None` until the first successful update: the constructor never sets it. */
    var info: Option<Info>
    var jobs: seq<Job>
    var state: ClusterState
    var queryDuration: QueryDuration
    ghost var trace: seq<Event>

    /** `new TerasliceStats(baseUrl)`: empty lists, empty state, no info, all durations 0. */
    constructor (baseUrl: string)
      ensures this.baseUrl == baseUrl
      ensures controllers == [] && executions == [] && jobs == [] && state == [] && info.None?
      ensures queryDuration == ZeroDurations && trace == []
    {
      this.baseUrl := baseUrl;
      controllers := [];
      executions := [];
      jobs := [];
      state := [];
      info := None;
      queryDuration := ZeroDurations;
      trace := [];
    }

    /**
     * `Promise.all(slice.map(x => this.getTerasliceApi('/v1/ex/' + x.ex_id)))`: every
     * request of the chunk is issued, and the answers are collected in order.
     */
    method FetchChunk(cluster: Cluster, chunk: seq<Controller>) returns (r: Result<seq<Execution>, ApiError>)
      modifies this`trace
      ensures r == FetchAll(baseUrl, cluster.execution, chunk)
      ensures trace == old(trace) + Gets(chunk)
    {
      r := Ok([]);
      var k := 0;
      while k < |chunk|
        invariant 0 <= k <= |chunk|
        invariant r == FetchAll(baseUrl, cluster.execution, chunk[..k])
        invariant trace == old(trace) + Gets(chunk[..k])
      {
        var reply := GetTerasliceApi(baseUrl, ExecutionPath(chunk[k].exId), cluster.execution(chunk[k].exId));
        trace := trace + [Get(ExecutionPath(chunk[k].exId))];
        if r.Ok? {
          match reply
          case Err(e) => r := Err(e);
          case Ok(x) => r := Ok(r.value + [x.data]);
        }
        assert chunk[..k + 1][..k] == chunk[..k];
        k := k + 1;
      }
      assert chunk[..k] == chunk;
    }

    /**
     * One pass of the loop in `updateExecutions()`, at `i = 10 * j`: fetch chunk `j`, append its
     * details, then pause 25 ms. A failing request ends the pass before the append and the pause.
     */
    method NextChunk(cluster: Cluster, i: nat, ghost j: nat, ghost t0: seq<Event>) returns (err: Option<ApiError>)
      requires i == MaxConcurrency * j && i < |controllers|
      requires ChunksDone(baseUrl, cluster.execution, controllers, j, executions, t0, trace)
      modifies this`executions, this`trace
      ensures err.None? ==> ChunksDone(baseUrl, cluster.execution, controllers, j + 1, executions, t0, trace)
      ensures err.Some? ==> ChunksStopped(baseUrl, cluster.execution, controllers, executions, t0, trace, err.value)
    {
      var n := |controllers|;
      ChunkIndex(n, j);
      var end := if i + MaxConcurrency < n then i + MaxConcurrency else n;
      var slice := controllers[i..end];
      assert slice == Chunk(controllers, j);
      var r := FetchChunk(cluster, slice);
      if r.Err? {
        StoppedAt(baseUrl, cluster.execution, controllers, j, executions, t0, trace, r.error);
        return Some(r.error);
      }
      ChunkAdvance(baseUrl, cluster.execution, controllers, j, executions, r.value);
      executions := executions + r.value;
      TraceStep(t0, trace, controllers, j);
      trace := trace + [Pause(QueryDelayMs)];
      return None;
    }

    /**
     * `updateExecutions()`: fetch the detail of every controller's execution, ten at a
     * time with a pause after each chunk, appending to a list emptied first.
     * `elapsedNs` is the time `process.hrtime` measures over the whole phase.
     */
    method UpdateExecutions(cluster: Cluster, elapsedNs: nat) returns (err: Option<ApiError>)
      modifies this`executions, this`queryDuration, this`trace
      ensures err.None? ==>
                && ChunksFetched(baseUrl, cluster.execution, controllers, executions, old(trace), trace)
                && queryDuration == old(queryDuration).(executions := RoundMs(elapsedNs) as real)
      ensures err.Some? ==>
                && ChunksStopped(baseUrl, cluster.execution, controllers, executions, old(trace), trace, err.value)
                && queryDuration == old(queryDuration)
    {
      executions := [];
      var i := 0;
      ghost var j := 0;
      while i < |controllers|
        invariant i == MaxConcurrency * j
        invariant ChunksDone(baseUrl, cluster.execution, controllers, j, executions, old(trace), trace)
        invariant queryDuration == old(queryDuration)
        decreases |controllers| - i
      {
        err := NextChunk(cluster, i, j, old(trace));
        if err.Some? {
          return;
        }
        i := i + MaxConcurrency;
        j := j + 1;
      }
      FetchedAll(baseUrl, cluster.execution, controllers, j, executions, old(trace), trace);
      queryDuration := queryDuration.(executions := RoundMs(elapsedNs) as real);
      err := None;
    }

    /**
     * `update()`: the four initial requests; when all succeed, overwrite info, jobs,
     * controllers and state, fetch the execution details, and only then record the four
     * request durations. Any failure is re-thrown wrapped with the base URL.
     */
    method Update(cluster: Cluster, elapsedNs: nat) returns (err: Option<UpdateError>)
      modifies this`info, this`jobs, this`controllers, this`state, this`executions, this`queryDuration, this`trace
      ensures var init := FetchInitial(baseUrl, cluster);
              && (init.Err? ==>
                    && err == Some(RunError(baseUrl, init.error))
                    && info == old(info) && jobs == old(jobs) && controllers == old(controllers)
                    && state == old(state) && executions == old(executions)
                    && queryDuration == old(queryDuration)
                    && trace == old(trace) + InitialGets)
              && (init.Ok? ==>
                    && info == Some(init.value.info.data)
                    && jobs == init.value.jobs.data
                    && controllers == init.value.controllers.data
                    && state == init.value.state.data
                    && var all := FetchAll(baseUrl, cluster.execution, controllers);
                       && (all.Ok? ==>
                             && err.None?
                             && ChunksFetched(baseUrl, cluster.execution, controllers, executions,
                                              old(trace) + InitialGets, trace)
                             && queryDuration == QueryDuration(
                                  controllers := init.value.controllers.queryDuration,
                                  executions := RoundMs(elapsedNs) as real,
                                  info := init.value.info.queryDuration,
                                  jobs := init.value.jobs.queryDuration,
                                  state := init.value.state.queryDuration))
                       && (all.Err? ==>
                             && err == Some(RunError(baseUrl, all.error))
                             && ChunksStopped(baseUrl, cluster.execution, controllers, executions,
                                              old(trace) + InitialGets, trace, all.error)
                             && queryDuration == old(queryDuration)))
    {
      var infoR := GetTerasliceApi(baseUrl, RootPath, cluster.root);
      var jobsR := GetTerasliceApi(baseUrl, JobsPath, cluster.jobs);
      var controllersR := GetTerasliceApi(baseUrl, ControllersPath, cluster.controllers);
      var stateR := GetTerasliceApi(baseUrl, StatePath, cluster.state);
      trace := trace + InitialGets;
      if infoR.Err? {
        return Some(RunError(baseUrl, infoR.error));
      } else if jobsR.Err? {
        return Some(RunError(baseUrl, jobsR.error));
      } else if controllersR.Err? {
        return Some(RunError(baseUrl, controllersR.error));
      } else if stateR.Err? {
        return Some(RunError(baseUrl, stateR.error));
      }
      info := Some(infoR.value.data);
      jobs := jobsR.value.data;
      controllers := controllersR.value.data;
      state := stateR.value.data;
      var e := UpdateExecutions(cluster, elapsedNs);
      if e.Some? {
        return Some(RunError(baseUrl, e.value));
      }
      queryDuration := queryDuration.(
        info := infoR.value.queryDuration,
        jobs := jobsR.value.queryDuration,
        controllers := controllersR.value.queryDuration,
        state := stateR.value.queryDuration);
      err := None;
    }
  }

  /** The loop `for (i = 0; i < n; i += 10)` runs its body for chunk `j` iff `j < ceil(n / 10)`. */
  lemma ChunkIndex(n: nat, j: nat)
    ensures MaxConcurrency * j < n <==> j < NumChunks(n)
    ensures MaxConcurrency * j < n ==> Covered(n, j) == MaxConcurrency * j
    ensures j == NumChunks(n) ==> Covered(n, j) == n
  {
  }

  /** The loop state when chunk `j` fails is the stopped outcome. */
  lemma StoppedAt(baseUrl: string, execution: string -> Response<Execution>, cs: seq<Controller>, j: nat,
                  done: seq<Execution>, t0: seq<Event>, t: seq<Event>, e: ApiError)
    requires j < NumChunks(|cs|) && Covered(|cs|, j) == MaxConcurrency * j
    requires FetchAll(baseUrl, execution, cs[..Covered(|cs|, j)]) == Ok(done)
    requires FetchAll(baseUrl, execution, Chunk(cs, j)) == Err(e)
    requires t == t0 + ChunkTraces(cs, j) + Gets(Chunk(cs, j))
    ensures ChunksStopped(baseUrl, execution, cs, done, t0, t, e)
  {
    ChunkFailure(baseUrl, execution, cs, j);
  }

  /** The loop state after the last chunk is the fetched outcome. */
  lemma FetchedAll(baseUrl: string, execution: string -> Response<Execution>, cs: seq<Controller>, j: nat,
                   done: seq<Execution>, t0: seq<Event>, t: seq<Event>)
    requires MaxConcurrency * j >= |cs|
    requires ChunksDone(baseUrl, execution, cs, j, done, t0, t)
    ensures ChunksFetched(baseUrl, execution, cs, done, t0, t)
  {
    ChunkIndex(|cs|, j);
    assert cs[..Covered(|cs|, j)] == cs;
  }

  /** After chunk `j`'s requests, the pause completes the trace of the first `j + 1` chunks. */
  lemma TraceStep(t0: seq<Event>, t: seq<Event>, cs: seq<Controller>, j: nat)
    requires j < NumChunks(|cs|)
    requires t == t0 + ChunkTraces(cs, j) + Gets(Chunk(cs, j))
    ensures t + [Pause(QueryDelayMs)] == t0 + ChunkTraces(cs, j + 1)
  {
  }

  /** One more chunk: the batch over the first `j + 1` chunks is the first `j`'s, then chunk `j`'s. */
  lemma ChunkAdvance(baseUrl: string, execution: string -> Response<Execution>, cs: seq<Controller>, j: nat,
                     done: seq<Execution>, more: seq<Execution>)
    requires j < NumChunks(|cs|)
    requires FetchAll(baseUrl, execution, cs[..Covered(|cs|, j)]) == Ok(done)
    requires FetchAll(baseUrl, execution, Chunk(cs, j)) == Ok(more)
    ensures FetchAll(baseUrl, execution, cs[..Covered(|cs|, j + 1)]) == Ok(done + more)
  {
    ChunksJoin(cs, j);
    FetchAllConcat(baseUrl, execution, cs[..MaxConcurrency * j], Chunk(cs, j));
  }

  /** When the chunks before chunk `j` succeed, the first failure overall is the first within chunk `j`. */
  lemma FirstFailureInChunk(baseUrl: string, execution: string -> Response<Execution>, cs: seq<Controller>, j: nat)
    requires j < NumChunks(|cs|)
    requires FetchAll(baseUrl, execution, cs[..MaxConcurrency * j]).Ok?
    requires FetchAll(baseUrl, execution, Chunk(cs, j)).Err?
    ensures FirstFailure(baseUrl, execution, cs) ==
              MaxConcurrency * j + FirstFailure(baseUrl, execution, Chunk(cs, j))
    ensures FirstFailure(baseUrl, execution, Chunk(cs, j)) < |Chunk(cs, j)|
  {
    FetchAllFails(baseUrl, execution, cs[..MaxConcurrency * j]);
    FetchAllFails(baseUrl, execution, Chunk(cs, j));
    FirstFailureAfter(baseUrl, execution, cs, MaxConcurrency * j, Chunk(cs, j));
  }

  /** When every request of `cs[..i]` succeeds and some request of `c = cs[i..]` fails, the first failure is in `c`. */
  lemma FirstFailureAfter(baseUrl: string, execution: string -> Response<Execution>, cs: seq<Controller>, i: nat, c: seq<Controller>)
    requires i + |c| <= |cs| && c == cs[i..i + |c|]
    requires FirstFailure(baseUrl, execution, cs[..i]) == i
    requires FirstFailure(baseUrl, execution, c) < |c|
    ensures FirstFailure(baseUrl, execution, cs) == i + FirstFailure(baseUrl, execution, c)
  {
    var fc := FirstFailure(baseUrl, execution, c);
    assert c[fc] == cs[i + fc];
    forall k | 0 <= k < i ensures FetchExecution(baseUrl, execution, cs[k]).Ok? {
      assert cs[..i][k] == cs[k];
    }
    forall k | i <= k < i + fc ensures FetchExecution(baseUrl, execution, cs[k]).Ok? {
      assert c[k - i] == cs[k];
    }
    FirstFailureUnique(baseUrl, execution, cs, i + fc);
  }

  /**
   * When the chunks before chunk `j` succeed and chunk `j` fails, the first failing
   * request lies in chunk `j`, and the whole batch fails with that chunk's error.
   */
  lemma ChunkFailure(baseUrl: string, execution: string -> Response<Execution>, cs: seq<Controller>, j: nat)
    requires j < NumChunks(|cs|)
    requires FetchAll(baseUrl, execution, cs[..MaxConcurrency * j]).Ok?
    requires FetchAll(baseUrl, execution, Chunk(cs, j)).Err?
    ensures FirstFailure(baseUrl, execution, cs) / MaxConcurrency == j
    ensures FetchAll(baseUrl, execution, cs).Err?
    ensures FetchAll(baseUrl, execution, cs).error == FetchAll(baseUrl, execution, Chunk(cs, j)).error
  {
    var c := Chunk(cs, j);
    FirstFailureInChunk(baseUrl, execution, cs, j);
    var fc := FirstFailure(baseUrl, execution, c);
    assert |c| <= MaxConcurrency;
    ChunkOffset(j, fc);
    FailureInside(baseUrl, execution, cs, MaxConcurrency * j, c);
  }

  lemma ChunkOffset(j: nat, f: nat)
    requires f < MaxConcurrency
    ensures (MaxConcurrency * j + f) / MaxConcurrency == j
  {
  }

  /** A batch whose first failure lies in the slice `c` fails with the error of `c`'s own batch. */
  lemma FailureInside(baseUrl: string, execution: string -> Response<Execution>, cs: seq<Controller>, i: nat, c: seq<Controller>)
    requires i + |c| <= |cs| && c == cs[i..i + |c|]
    requires FirstFailure(baseUrl, execution, c) < |c|
    requires FirstFailure(baseUrl, execution, cs) == i + FirstFailure(baseUrl, execution, c)
    ensures FetchAll(baseUrl, execution, cs).Err? && FetchAll(baseUrl, execution, c).Err?
    ensures FetchAll(baseUrl, execution, cs).error == FetchAll(baseUrl, execution, c).error
  {
    FetchAllFails(baseUrl, execution, c);
    FetchAllFails(baseUrl, execution, cs);
    var fc := FirstFailure(baseUrl, execution, c);
    assert c[fc] == cs[i + fc];
  }
}
