/**
 * mesh/sim: the simulated cluster as a machine over values. Each function is one operation of
 * `SimCluster`, `SimAgent` or `ChaosController`; module SimCluster runs the same operations on objects.
 */
module SimModel {
  import opened Sorting
  import opened Models
  import opened Placement
  import opened Checkpointing
  import opened Stealing
  import opened Health

  datatype Agent = Agent(
    id: NodeId,
    hostname: string,
    cores: int,
    ram: real,
    gpuCount: int,
    vram: real,
    cuda: Option<Cuda>,
    network: real,
    battery: Option<real>,
    preemptible: bool,
    reliability: real,
    latency: real,
    pool: ResourcePool,
    location: string,
    alive: bool,
    userActive: bool,
    cpuUtilization: real)
  {
    function ToNode(state: NodeState): Node {
      Node(id, hostname,
           Resources(cores, if alive then Max(0.0, cores as real * (1.0 - cpuUtilization)) else 0.0,
                     ram, if alive then ram * 0.7 else 0.0,
                     gpuCount, if alive then vram else 0.0, cuda, network, battery, cpuUtilization, userActive),
           if alive then state else Dead,
           reliability, latency, pool, preemptible, location)
    }
  }

  /** What an event or an outside caller does to the cluster; `Crash` kills an agent and tells nobody. */
  datatype Action =
    | Kill(id: NodeId)
    | Crash(id: NodeId)
    | Preempt(id: NodeId, spike: real)
    | Drain(id: NodeId, pct: real)
    | Submit(task: Task)
    | HourPasses(hour: int)

  datatype Event = Event(at: real, action: Action)

  datatype Stamped = Stamped(at: real, change: Change)

  /**
   * `shared`: whether the work stealer reads the cluster's checkpoints; by default it has an empty table of its
   * own.
   */
  datatype Cluster = Cluster(
    engine: Engine,
    shared: bool,
    tick: real,
    now: real,
    agents: seq<Agent>,
    tracker: Tracker,
    tasks: seq<Task>,
    checkpoints: Checkpoints,
    events: seq<Event>,
    changes: seq<Stamped>)

  /** What no operation on nodes and tasks touches. */
  predicate SameFrame(a: Cluster, b: Cluster) {
    && a.shared == b.shared && a.tick == b.tick && a.now == b.now
    && a.events == b.events && |a.agents| == |b.agents|
  }

  // ---- nodes ----

  function Killed(agents: seq<Agent>, id: NodeId): (r: seq<Agent>)
    ensures |r| == |agents|
    ensures forall i :: 0 <= i < |r| ==> r[i] == if agents[i].id == id then agents[i].(alive := false) else agents[i]
  {
    if |agents| == 0 then []
    else [if agents[0].id == id then agents[0].(alive := false) else agents[0]] + Killed(agents[1..], id)
  }

  function Spiked(agents: seq<Agent>, id: NodeId, spike: real): (r: seq<Agent>)
    ensures |r| == |agents|
    ensures forall i :: 0 <= i < |r| ==>
      r[i] == if agents[i].id == id then agents[i].(userActive := true, cpuUtilization := spike) else agents[i]
  {
    if |agents| == 0 then []
    else [if agents[0].id == id then agents[0].(userActive := true, cpuUtilization := spike) else agents[0]]
         + Spiked(agents[1..], id, spike)
  }

  function DrainOne(a: Agent, pct: real): Agent {
    if a.battery.Some? then a.(battery := Some(pct)) else a
  }

  function Drained(agents: seq<Agent>, id: NodeId, pct: real): (r: seq<Agent>)
    ensures |r| == |agents|
    ensures forall i :: 0 <= i < |r| ==> r[i] == if agents[i].id == id then DrainOne(agents[i], pct) else agents[i]
  {
    if |agents| == 0 then []
    else [if agents[0].id == id then DrainOne(agents[0], pct) else agents[0]] + Drained(agents[1..], id, pct)
  }

  /** `_live_nodes` evaluates every live agent, which updates the tracker. */
  function EvaluateAlive(t: Tracker, agents: seq<Agent>, now: real): Tracker
    decreases |agents|
  {
    if |agents| == 0 then t
    else EvaluateAlive(if agents[0].alive then Evaluate(t, agents[0].id, now).0 else t, agents[1..], now)
  }

  function LiveNodes(t: Tracker, agents: seq<Agent>, now: real): seq<Node>
    decreases |agents|
  {
    if |agents| == 0 then []
    else if agents[0].alive then
      var (t', state) := Evaluate(t, agents[0].id, now);
      [agents[0].ToNode(state)] + LiveNodes(t', agents[1..], now)
    else LiveNodes(t, agents[1..], now)
  }

  lemma {:induction false} LiveNodesStep(t: Tracker, agents: seq<Agent>, i: nat, now: real, live: seq<Node>)
    requires i < |agents|
    ensures var (t1, state) := if agents[i].alive then Evaluate(t, agents[i].id, now) else (t, Dead);
            && EvaluateAlive(t, agents[i..], now) == EvaluateAlive(t1, agents[i + 1..], now)
            && live + LiveNodes(t, agents[i..], now) ==
                 (if agents[i].alive then live + [agents[i].ToNode(state)] else live)
                     + LiveNodes(t1, agents[i + 1..], now)
  {
    assert agents[i..][1..] == agents[i + 1..];
    if agents[i].alive {
      var (t1, state) := Evaluate(t, agents[i].id, now);
      var one, rest := [agents[i].ToNode(state)], LiveNodes(t1, agents[i + 1..], now);
      assert live + (one + rest) == live + one + rest;
    }
  }

  /** Every agent is registered with the health registry, in order, when the cluster is made. */
  function RegisterAll(t: Tracker, agents: seq<Agent>, now: real): Tracker
    decreases |agents|
  {
    if |agents| == 0 then t else RegisterAll(Beat(t, agents[0].id, now), agents[1..], now)
  }

  // ---- death of a node ----

  function StealerTable(c: Cluster): Checkpoints { if c.shared then c.checkpoints else map[] }

  function HandleDeath(c: Cluster, d: NodeId): (r: Cluster)
    ensures SameFrame(c, r)
  {
    var agents := Killed(c.agents, d);
    if !HasOrphan(c.tasks, {d}) then c.(agents := agents)
    else
      var nodes := LiveNodes(c.tracker, agents, c.now);
      c.(agents := agents,
         tracker := EvaluateAlive(c.tracker, agents, c.now),
         tasks := StealTable(c.engine, StealerTable(c), HealthyNodes(nodes), {d}, {}, c.tasks))
  }

  /** The cluster's callback on a state change. */
  function OnChange(c: Cluster, id: NodeId, was: NodeState, state: NodeState): (r: Cluster)
    ensures SameFrame(c, r)
  {
    if was == state then c
    else
      var c' := c.(changes := c.changes + [Stamped(c.now, Change(id, was, state))]);
      if state == Dead then HandleDeath(c', id) else c'
  }

  // ---- submit, chaos and scheduled events ----

  function Put(tasks: seq<Task>, t: Task): seq<Task> {
    if |tasks| == 0 then [t]
    else if tasks[0].id == t.id then [t] + tasks[1..]
    else [tasks[0]] + Put(tasks[1..], t)
  }

  function SubmitTask(c: Cluster, t: Task): (r: Cluster)
    ensures SameFrame(c, r)
  {
    var placed := match Place(c.engine, t, LiveNodes(c.tracker, c.agents, c.now))
                  case Some(p) => t.(node := Some(p.node), state := Running)
                  case None => t.(state := Pending);
    c.(tracker := EvaluateAlive(c.tracker, c.agents, c.now), tasks := Put(c.tasks, placed))
  }

  /** `kill_node`: the agents stop, and the registry is told. */
  function KillNode(c: Cluster, id: NodeId): (r: Cluster)
    ensures SameFrame(c, r)
  {
    OnChange(c.(agents := Killed(c.agents, id), tracker := MarkDead(c.tracker, id)), id, StateOf(c.tracker, id), Dead)
  }

  function Perform(c: Cluster, a: Action): (r: Cluster)
    ensures SameFrame(c, r)
  {
    match a
    case Kill(id) => KillNode(c, id)
    case Crash(id) => c.(agents := Killed(c.agents, id))
    case Preempt(id, spike) => c.(agents := Spiked(c.agents, id, spike))
    case Drain(id, pct) => c.(agents := Drained(c.agents, id, pct))
    case Submit(t) => SubmitTask(c, t)
    case HourPasses(hour) => c.(engine := c.engine.(hour := hour))
  }

  predicate Earlier(a: Event, b: Event) { a.at <= b.at }

  function Schedule(c: Cluster, at: real, a: Action): Cluster {
    c.(events := Sort(c.events + [Event(at, a)], Earlier))
  }

  // ---- one tick ----

  function FireEvents(c: Cluster): Cluster
    decreases |c.events|
  {
    if |c.events| == 0 || c.events[0].at > c.now then c
    else FireEvents(Perform(c.(events := c.events[1..]), c.events[0].action))
  }

  function BeatAgent(c: Cluster, i: nat): (r: Cluster)
    requires i < |c.agents|
    ensures SameFrame(c, r)
  {
    if !c.agents[i].alive then c
    else
      var id := c.agents[i].id;
      OnChange(c.(tracker := Beat(c.tracker, id, c.now)), id, StateOf(c.tracker, id), Healthy)
  }

  function BeatFrom(c: Cluster, i: nat): Cluster
    decreases |c.agents| - i
  {
    if i >= |c.agents| then c else BeatFrom(BeatAgent(c, i), i + 1)
  }

  function EvaluateNode(c: Cluster, id: NodeId): (r: Cluster)
    ensures SameFrame(c, r)
  {
    var (t, state) := Evaluate(c.tracker, id, c.now);
    OnChange(c.(tracker := t), id, StateOf(c.tracker, id), state)
  }

  function EvaluateNodes(c: Cluster, ids: seq<NodeId>): Cluster
    decreases |ids|
  {
    if |ids| == 0 then c else EvaluateNodes(EvaluateNode(c, ids[0]), ids[1..])
  }

  function Advance(t: Task, tick: real): Task {
    if t.state == Running then t.(progress := Min(t.totalWork, t.progress + tick)) else t
  }

  function AdvanceAll(tasks: seq<Task>, tick: real): (r: seq<Task>)
    ensures |r| == |tasks| && forall i :: 0 <= i < |r| ==> r[i] == Advance(tasks[i], tick)
  {
    if |tasks| == 0 then [] else [Advance(tasks[0], tick)] + AdvanceAll(tasks[1..], tick)
  }

  /** Saves every running task that wants checkpoints; the simulation saves no user state. */
  function SaveRunning(cps: Checkpoints, tasks: seq<Task>, now: real): Checkpoints
    decreases |tasks|
  {
    if |tasks| == 0 then cps
    else SaveRunning(if tasks[0].state == Running && tasks[0].checkpoint then Saved(cps, tasks[0], map[], now) else cps,
                     tasks[1..], now)
  }

  function Complete(t: Task): Task {
    if t.state == Running && t.progress >= t.totalWork then t.(state := Completed) else t
  }

  function CompleteAll(tasks: seq<Task>): (r: seq<Task>)
    ensures |r| == |tasks| && forall i :: 0 <= i < |r| ==> r[i] == Complete(tasks[i])
  {
    if |tasks| == 0 then [] else [Complete(tasks[0])] + CompleteAll(tasks[1..])
  }

  /** The tick up to the point where tasks advance. */
  function HealthPhase(c: Cluster): Cluster {
    var beaten := BeatFrom(FireEvents(c), 0);
    EvaluateNodes(beaten, beaten.tracker.known)
  }

  function WorkPhase(c: Cluster): Cluster {
    var advanced := AdvanceAll(c.tasks, c.tick);
    c.(tasks := CompleteAll(advanced), checkpoints := SaveRunning(c.checkpoints, advanced, c.now))
  }

  /** One round of `run`: a tick, then the clock moves on. */
  function TickOnce(c: Cluster): Cluster {
    var done := WorkPhase(HealthPhase(c));
    done.(now := done.now + done.tick)
  }

  // ---- runs ----

  datatype Step = Tick | Do(action: Action) | At(at: real, action: Action)

  function StepOnce(c: Cluster, s: Step): Cluster {
    match s
    case Tick => TickOnce(c)
    case Do(a) => Perform(c, a)
    case At(at, a) => Schedule(c, at, a)
  }

  function RunSteps(c: Cluster, steps: seq<Step>): Cluster
    decreases |steps|
  {
    if |steps| == 0 then c else RunSteps(StepOnce(c, steps[0]), steps[1..])
  }

  /** `n` rounds of `run`. */
  function TickSteps(n: nat): seq<Step> {
    if n == 0 then [] else TickSteps(n - 1) + [Tick]
  }

  lemma {:induction false} RunSnoc(c: Cluster, steps: seq<Step>, s: Step)
    ensures RunSteps(c, steps + [s]) == StepOnce(RunSteps(c, steps), s)
    decreases |steps|
  {
    if |steps| == 0 {
      assert (steps + [s])[1..] == [];
    } else {
      RunSnoc(StepOnce(c, steps[0]), steps[1..], s);
      assert (steps + [s])[1..] == steps[1..] + [s];
    }
  }

  /** The states between the rounds of `run`, from the first to the last. */
  ghost predicate Rounds(trace: seq<Cluster>) {
    && |trace| > 0
    && forall i :: 0 <= i < |trace| - 1 ==> trace[i + 1] == StepOnce(trace[i], Tick)
  }

  lemma {:induction false} RoundsSnoc(trace: seq<Cluster>, c: Cluster)
    requires Rounds(trace) && c == StepOnce(trace[|trace| - 1], Tick)
    ensures Rounds(trace + [c])
  {
  }

  lemma {:induction false} RoundsAreRun(trace: seq<Cluster>)
    requires Rounds(trace)
    ensures trace[|trace| - 1] == RunSteps(trace[0], TickSteps(|trace| - 1))
  {
    var k := |trace| - 1;
    if k > 0 {
      RoundsAreRun(trace[..k]);
      RunSnoc(trace[0], TickSteps(k - 1), Tick);
      assert trace[k - 1 + 1] == StepOnce(trace[k - 1], Tick);
    }
  }
}
