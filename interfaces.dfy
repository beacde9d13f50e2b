/**
 * Record shapes of the cluster manager's REST payloads (src/interfaces.ts and the
 * JSON examples in src/metrics.ts). JavaScript numbers are `real`; a field the
 * code tests for truthiness is an `Option`.
 */
module Interfaces {
  import opened Wrappers

  /** Body of `GET /`: the cluster master's metadata. */
  datatype Info = Info(
    arch: string,
    clusteringType: string,
    name: string,
    nodeVersion: string,
    platform: string,
    terasliceVersion: string)

  /** One entry of `GET /v1/jobs`; the collector stores jobs but never inspects them. */
  datatype Job = Job(jobId: string, name: string)

  /** One entry of `GET /v1/cluster/controllers`. */
  datatype Controller = Controller(
    exId: string,
    jobId: string,
    name: string,
    workersAvailable: real,
    workersActive: real,
    workersJoined: real,
    workersReconnected: real,
    workersDisconnected: real,
    failed: real,
    queued: real,
    processed: real,
    slicers: real)

  /**
   * Body of `GET /v1/ex/<ex_id>`. `cpu` and `memory` are optional settings:
   * `None` is an absent key.
   */
  datatype Execution = Execution(
    exId: string,
    jobId: string,
    name: string,
    cpu: Option<real>,
    memory: Option<real>,
    created: string,
    updated: string,
    slicers: real,
    workers: real,
    status: string)

  /** A worker assignment in a node's `active` list (TerasliceWorker). */
  datatype Worker = Worker(
    assets: seq<string>,
    assignment: string,
    exId: string,
    image: string,
    jobId: string,
    podName: string,
    podIp: string,
    workerId: string)

  /** TerasliceWorkerNodeInfo. */
  datatype WorkerNode = WorkerNode(
    nodeId: string,
    hostname: string,
    pid: string,
    nodeVersion: string,
    terasliceVersion: string,
    total: string,
    state: string,
    available: string,
    active: seq<Worker>)

  /**
   * Body of `GET /v1/cluster/state`: node id to node info, held as the
   * (key, value) pairs in the order `Object.entries` enumerates them.
   */
  type ClusterState = seq<(string, WorkerNode)>

  /** StateExecution: what the projector keeps per execution id found in the cluster state. */
  datatype StateExecution = StateExecution(exId: string, jobId: string, image: string)

  /** TerasliceQueryDuration: elapsed milliseconds per query. */
  datatype QueryDuration = QueryDuration(
    controllers: real,
    executions: real,
    info: real,
    jobs: real,
    state: real)

  /** A JavaScript value is truthy when it is present and not zero. */
  predicate Truthy(x: Option<real>) {
    x.Some? && x.value != 0.0
  }
}
