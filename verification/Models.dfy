/** The value types of mesh/models: node snapshots, task specifications, checkpoints. */
module Models {
  import opened Sorting

  datatype Option<+T> = None | Some(value: T)

  type NodeId = string
  type TaskId = string

  datatype NodeState = Healthy | Suspected | Dead | Preempted | Offline

  datatype TaskState = Pending | Running | Checkpointing | Paused | Completed | Failed | Migrating

  datatype ResourcePool = CpuPool | MemoryPool | GpuPool | NightPool

  /** A CUDA version string: empty (falsy in Python) or with a numeric major part. */
  datatype Cuda = Blank | Version(major: real)

  datatype Resources = Resources(
    cpuTotal: int,
    cpuFree: real,
    ramTotal: real,
    ramFree: real,
    gpuCount: int,
    vramFree: real,
    cuda: Option<Cuda>,
    network: real,
    battery: Option<real>,
    cpuUtilization: real,
    userActive: bool)
  {
    function CpuComponent(): real {
      if cpuTotal == 0 then 0.0 else Min(1.0, cpuFree / cpuTotal as real)
    }

    function MemoryComponent(): real {
      if ramTotal == 0.0 then 0.0 else Min(1.0, ramFree / ramTotal)
    }

    function GpuComponent(): real {
      if gpuCount == 0 then 0.0 else if vramFree > 0.0 then 1.0 else 0.0
    }
  }

  datatype Requirements = Requirements(
    cpu: real,
    ram: real,
    gpuCount: int,
    vram: real,
    cuda: Option<Cuda>,
    network: real,
    minBattery: Option<real>)

  datatype Node = Node(
    id: NodeId,
    hostname: string,
    resources: Resources,
    state: NodeState,
    reliability: real,
    latency: real,
    pool: ResourcePool,
    preemptible: bool,
    location: string)
  {
    predicate Meets(req: Requirements) {
      var r := resources;
      && r.cpuFree >= req.cpu
      && r.ramFree >= req.ram
      && (req.gpuCount > 0 ==>
        && r.gpuCount >= req.gpuCount
        && !(req.vram > 0.0 && r.vramFree < req.vram)
        && (req.cuda.Some? && req.cuda.value.Version? && r.cuda.Some? && r.cuda.value.Version? ==>
          r.cuda.value.major >= req.cuda.value.major))
      && !(req.network > 0.0 && r.network < req.network)
      && (req.minBattery.Some? && r.battery.Some? ==> r.battery.value >= req.minBattery.value)
      && state == Healthy
    }
  }

  /** What a `TaskSpec` object holds at one moment. */
  datatype Task = Task(
    id: TaskId,
    req: Requirements,
    pool: Option<ResourcePool>,
    checkpoint: bool,
    checkpointInterval: real,
    totalWork: real,
    state: TaskState,
    node: Option<NodeId>,
    progress: real,
    stateData: map<string, int>)

  datatype Checkpoint = Checkpoint(progress: real, stateData: map<string, int>, timestamp: real)

  ghost predicate UniqueNodes(nodes: seq<Node>) {
    forall i, j :: 0 <= i < j < |nodes| ==> nodes[i].id != nodes[j].id
  }

  lemma {:induction false} FilterUnique(nodes: seq<Node>, keep: Node -> bool)
    requires UniqueNodes(nodes)
    ensures UniqueNodes(Filter(nodes, keep))
  {
    if |nodes| > 0 {
      FilterUnique(nodes[1..], keep);
      var rest := Filter(nodes[1..], keep);
      forall j | 0 <= j < |rest| ensures rest[j].id != nodes[0].id {
        assert rest[j] in nodes[1..];
      }
    }
  }

  function HealthyNodes(nodes: seq<Node>): seq<Node> {
    Filter(nodes, (n: Node) => n.state == Healthy)
  }

  /** A task table is a dictionary: it holds one task per id. */
  ghost predicate UniqueIds(tasks: seq<Task>) {
    forall i, j :: 0 <= i < j < |tasks| ==> tasks[i].id != tasks[j].id
  }

  /** A task object; every component that is handed one updates its fields in place. */
  class TaskSpec {
    const id: TaskId
    const req: Requirements
    const pool: Option<ResourcePool>
    const checkpoint: bool
    const checkpointInterval: real
    const totalWork: real
    var state: TaskState
    var node: Option<NodeId>
    var progress: real
    var stateData: map<string, int>

    function View(): Task
      reads this
    {
      Task(id, req, pool, checkpoint, checkpointInterval, totalWork, state, node, progress, stateData)
    }

    constructor (t: Task)
      ensures View() == t
    {
      id, req, pool := t.id, t.req, t.pool;
      checkpoint, checkpointInterval, totalWork := t.checkpoint, t.checkpointInterval, t.totalWork;
      state, node, progress, stateData := t.state, t.node, t.progress, t.stateData;
    }
  }

  ghost predicate Distinct<T>(xs: seq<T>) {
    forall i, j :: 0 <= i < j < |xs| ==> xs[i] != xs[j]
  }

  function Views(specs: seq<TaskSpec>): (r: seq<Task>)
    reads specs
    ensures |r| == |specs| && forall i :: 0 <= i < |specs| ==> r[i] == specs[i].View()
  {
    seq(|specs|, i requires 0 <= i < |specs| reads specs => specs[i].View())
  }

  lemma {:induction false} ViewsTail(specs: seq<TaskSpec>)
    requires |specs| > 0
    ensures Views(specs)[1..] == Views(specs[1..])
  {
  }

  lemma {:induction false} ViewsCons(spec: TaskSpec, specs: seq<TaskSpec>)
    ensures Views([spec] + specs) == [spec.View()] + Views(specs)
  {
  }
}
