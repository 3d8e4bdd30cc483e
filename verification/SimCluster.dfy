/**
 * mesh/sim/cluster.py, mesh/sim/agent.py and mesh/sim/chaos.py on objects, each method proved to be its step of
 * SimModel.
 */
module SimCluster {
  import opened Sorting
  import opened Models
  import opened Placement
  import opened Checkpointing
  import opened Stealing
  import opened Health
  import SimModel

  class SimAgent {
    const base: SimModel.Agent
    var alive: bool
    var userActive: bool
    var cpuUtilization: real
    var battery: Option<real>

    function View(): SimModel.Agent
      reads this
    {
      base.(alive := alive, userActive := userActive, cpuUtilization := cpuUtilization, battery := battery)
    }

    constructor (a: SimModel.Agent)
      ensures View() == a
    {
      base := a;
      alive, userActive, cpuUtilization, battery := a.alive, a.userActive, a.cpuUtilization, a.battery;
    }

    method Kill()
      modifies this
      ensures View() == old(View()).(alive := false)
    {
      alive := false;
    }

    method Preempt(spike: real)
      modifies this
      ensures View() == old(View()).(userActive := true, cpuUtilization := spike)
    {
      userActive := true;
      cpuUtilization := spike;
    }

    method DrainBattery(pct: real)
      modifies this
      ensures View() == SimModel.DrainOne(old(View()), pct)
    {
      if battery.Some? {
        battery := Some(pct);
      }
    }
  }

  function AgentViews(agents: seq<SimAgent>): (r: seq<SimModel.Agent>)
    reads agents
    ensures |r| == |agents| && forall i :: 0 <= i < |agents| ==> r[i] == agents[i].View()
  {
    seq(|agents|, i requires 0 <= i < |agents| reads agents => agents[i].View())
  }

  /** The dictionary update of a submission, on task objects. */
  function PutSpec(specs: seq<TaskSpec>, spec: TaskSpec): (r: seq<TaskSpec>)
    ensures forall x :: x in r ==> x == spec || x in specs
  {
    if |specs| == 0 then [spec]
    else if specs[0].id == spec.id then [spec] + specs[1..]
    else [specs[0]] + PutSpec(specs[1..], spec)
  }

  /** The task table is a dictionary: one task object per id. */
  ghost predicate UniqueKeys(specs: seq<TaskSpec>) {
    forall i, j :: 0 <= i < j < |specs| ==> specs[i].id != specs[j].id
  }

  lemma {:induction false} PutSpecUnique(specs: seq<TaskSpec>, spec: TaskSpec)
    requires UniqueKeys(specs)
    ensures UniqueKeys(PutSpec(specs, spec))
  {
    if |specs| > 0 && specs[0].id != spec.id {
      PutSpecUnique(specs[1..], spec);
      var rest := PutSpec(specs[1..], spec);
      forall j | 0 <= j < |rest| ensures rest[j].id != specs[0].id {
        assert rest[j] in rest;
        assert rest[j] in specs[1..] || rest[j] == spec;
      }
    }
  }

  /**
   * The table after a submission: `before` are the old values, and only the submitted object may have changed
   * since.
   */
  lemma {:induction false} PutSpecViews(specs: seq<TaskSpec>, spec: TaskSpec, before: seq<Task>)
    requires UniqueKeys(specs) && |before| == |specs|
    requires forall i :: 0 <= i < |specs| ==> before[i].id == specs[i].id
    requires forall i :: 0 <= i < |specs| && specs[i] != spec ==> specs[i].View() == before[i]
    ensures Views(PutSpec(specs, spec)) == SimModel.Put(before, spec.View())
  {
    if |specs| > 0 {
      if specs[0].id == spec.id {
        assert Views(specs[1..]) == before[1..];
        ViewsCons(spec, specs[1..]);
      } else {
        PutSpecViews(specs[1..], spec, before[1..]);
        ViewsCons(specs[0], PutSpec(specs[1..], spec));
      }
    }
  }

  method KillAgents(agents: seq<SimAgent>, d: NodeId)
    requires Distinct(agents)
    modifies agents
    ensures AgentViews(agents) == SimModel.Killed(old(AgentViews(agents)), d)
  {
    for i := 0 to |agents|
      invariant forall j :: 0 <= j < i ==>
        agents[j].View() == if agents[j].base.id == d then old(agents[j].View()).(alive := false)
            else old(agents[j].View())
      invariant forall j :: i <= j < |agents| ==> agents[j].View() == old(agents[j].View())
    {
      if agents[i].base.id == d {
        agents[i].Kill();
      }
    }
  }

  method PreemptAgents(agents: seq<SimAgent>, d: NodeId, spike: real)
    requires Distinct(agents)
    modifies agents
    ensures AgentViews(agents) == SimModel.Spiked(old(AgentViews(agents)), d, spike)
  {
    for i := 0 to |agents|
      invariant forall j :: 0 <= j < i ==>
        agents[j].View() == if agents[j].base.id == d
                            then old(agents[j].View()).(userActive := true, cpuUtilization := spike)
                            else old(agents[j].View())
      invariant forall j :: i <= j < |agents| ==> agents[j].View() == old(agents[j].View())
    {
      if agents[i].base.id == d {
        agents[i].Preempt(spike);
      }
    }
  }

  method DrainAgents(agents: seq<SimAgent>, d: NodeId, pct: real)
    requires Distinct(agents)
    modifies agents
    ensures AgentViews(agents) == SimModel.Drained(old(AgentViews(agents)), d, pct)
  {
    for i := 0 to |agents|
      invariant forall j :: 0 <= j < i ==>
        agents[j].View() == if agents[j].base.id == d then SimModel.DrainOne(old(agents[j].View()), pct)
            else old(agents[j].View())
      invariant forall j :: i <= j < |agents| ==> agents[j].View() == old(agents[j].View())
    {
      if agents[i].base.id == d {
        agents[i].DrainBattery(pct);
      }
    }
  }

  /** `_live_nodes`: the tracker is updated by the evaluations. */
  method LiveNodes(tracker: HeartbeatTracker, agents: seq<SimAgent>, now: real) returns (live: seq<Node>)
    modifies tracker
    ensures tracker.View() == SimModel.EvaluateAlive(old(tracker.View()), AgentViews(agents), now)
    ensures live == SimModel.LiveNodes(old(tracker.View()), AgentViews(agents), now)
  {
    live := [];
    ghost var views, t := AgentViews(agents), tracker.View();
    assert views[0..] == views && [] + SimModel.LiveNodes(t, views, now) == SimModel.LiveNodes(t, views, now);
    for i := 0 to |agents|
      invariant AgentViews(agents) == views
      invariant live + SimModel.LiveNodes(tracker.View(), views[i..], now) == SimModel.LiveNodes(t, views, now)
      invariant SimModel.EvaluateAlive(tracker.View(), views[i..], now) == SimModel.EvaluateAlive(t, views, now)
    {
      SimModel.LiveNodesStep(tracker.View(), views, i, now, live);
      assert views[i] == agents[i].View();
      if agents[i].alive {
        var state := tracker.EvaluateNode(agents[i].base.id, now);
        live := live + [agents[i].View().ToNode(state)];
      }
    }
    assert live + [] == live;
  }

  method AdvanceTasks(tasks: seq<TaskSpec>, tick: real, manager: CheckpointManager, now: real)
    requires Distinct(tasks)
    modifies tasks, manager
    ensures Views(tasks) == SimModel.AdvanceAll(old(Views(tasks)), tick)
    ensures manager.table == SimModel.SaveRunning(old(manager.table), Views(tasks), now)
  {
    ghost var before := Views(tasks);
    ghost var after := SimModel.AdvanceAll(before, tick);
    ghost var goal := SimModel.SaveRunning(manager.table, after, now);
    assert after[0..] == after;
    for i := 0 to |tasks|
      invariant forall j :: 0 <= j < i ==> tasks[j].View() == after[j]
      invariant forall j :: i <= j < |tasks| ==> tasks[j].View() == before[j]
      invariant SimModel.SaveRunning(manager.table, after[i..], now) == goal
    {
      assert after[i..][1..] == after[i + 1..];
      if tasks[i].state == Running {
        tasks[i].progress := Min(tasks[i].totalWork, tasks[i].progress + tick);
        assert tasks[i].View() == after[i];
        if tasks[i].checkpoint {
          manager.Save(tasks[i], map[], now);
        }
      }
    }
    assert Views(tasks) == after;
  }

  method CompleteTasks(tasks: seq<TaskSpec>)
    requires Distinct(tasks)
    modifies tasks
    ensures Views(tasks) == SimModel.CompleteAll(old(Views(tasks)))
  {
    ghost var before := Views(tasks);
    for i := 0 to |tasks|
      invariant forall j :: 0 <= j < i ==> tasks[j].View() == SimModel.Complete(before[j])
      invariant forall j :: i <= j < |tasks| ==> tasks[j].View() == before[j]
    {
      if tasks[i].state == Running && tasks[i].progress >= tasks[i].totalWork {
        tasks[i].state := Completed;
      }
    }
  }

  method RegisterAgents(agents: seq<SimAgent>, tracker: HeartbeatTracker, now: real)
    modifies tracker
    ensures tracker.View() == SimModel.RegisterAll(old(tracker.View()), AgentViews(agents), now)
  {
    ghost var views := AgentViews(agents);
    assert views[0..] == views;
    for i := 0 to |agents|
      invariant SimModel.RegisterAll(tracker.View(), views[i..], now) ==
        SimModel.RegisterAll(old(tracker.View()), views, now)
      invariant AgentViews(agents) == views
    {
      assert views[i..][1..] == views[i + 1..] && views[i] == agents[i].View();
      tracker.RecordHeartbeat(agents[i].base.id, now);
    }
  }

  class Cluster {
    const agents: seq<SimAgent>
    const tracker: HeartbeatTracker
    const manager: CheckpointManager
    const stealer: WorkStealer
    const tick: real
    var now: real
    var tasks: seq<TaskSpec>
    var events: seq<SimModel.Event>
    var changes: seq<SimModel.Stamped>

    /** Agents and tasks are different objects; a stealer with a checkpoint table of its own has an empty one. */
    ghost predicate Valid()
      reads this, stealer.checkpoints
    {
      && Distinct(agents) && Distinct(tasks) && UniqueKeys(tasks)
      && (stealer.checkpoints != manager ==> stealer.checkpoints.table == map[])
    }

    function View(): SimModel.Cluster
      reads this, stealer, tracker, manager, agents, tasks
    {
      SimModel.Cluster(stealer.engine, stealer.checkpoints == manager, tick, now, AgentViews(agents),
                       tracker.View(), Views(tasks), manager.table, events, changes)
    }

    /** `__post_init__` registers the agents, which counts as a heartbeat that nobody is told of. */
    constructor (agents: seq<SimAgent>, tracker: HeartbeatTracker, manager: CheckpointManager, stealer: WorkStealer,
                 tick: real, now: real)
      requires Distinct(agents)
      requires stealer.checkpoints != manager ==> stealer.checkpoints.table == map[]
      modifies tracker
      ensures Valid() && this.tasks == []
      ensures View() == SimModel.Cluster(stealer.engine, stealer.checkpoints == manager, tick, now, AgentViews(agents),
                                         SimModel.RegisterAll(old(tracker.View()), AgentViews(agents), now), [],
                                         manager.table, [], [])
    {
      this.agents, this.tracker, this.manager, this.stealer := agents, tracker, manager, stealer;
      this.tick, this.now, this.tasks, this.events, this.changes := tick, now, [], [], [];
      new;
      RegisterAgents(agents, tracker, now);
    }

    method KillAll(d: NodeId)
      requires Valid()
      modifies agents
      ensures Valid() && View() == old(View()).(agents := SimModel.Killed(old(View()).agents, d))
    {
      ghost var c := View();
      KillAgents(agents, d);
      assert Views(tasks) == c.tasks && tracker.View() == c.tracker && manager.table == c.checkpoints;
    }

    method SeeLiveNodes() returns (nodes: seq<Node>)
      requires Valid()
      modifies tracker
      ensures var c := old(View());
              && nodes == SimModel.LiveNodes(c.tracker, c.agents, c.now)
              && View() == c.(tracker := SimModel.EvaluateAlive(c.tracker, c.agents, c.now))
    {
      ghost var c := View();
      nodes := LiveNodes(tracker, agents, now);
      assert AgentViews(agents) == c.agents && Views(tasks) == c.tasks && manager.table == c.checkpoints;
    }

    method StealOrphansOf(d: NodeId, nodes: seq<Node>)
      requires Valid()
      modifies tasks
      ensures Valid()
      ensures var c := old(View());
              View() == c.(tasks := StealTable(c.engine, SimModel.StealerTable(c), HealthyNodes(nodes),
                                           {d}, {}, c.tasks))
    {
      ghost var c := View();
      StealFrom(stealer, tasks, {d}, nodes);
      assert AgentViews(agents) == c.agents;
      assert tracker.View() == c.tracker && manager.table == c.checkpoints;
    }

    /** The orphans of `d`, if there are any, are stolen by the nodes that are seen alive. */
    method ReassignOrphans(d: NodeId)
      requires Valid()
      modifies tracker, tasks
      ensures Valid()
      ensures var c := old(View());
              View() ==
                if !HasOrphan(c.tasks, {d}) then c
                else c.(tracker := SimModel.EvaluateAlive(c.tracker, c.agents, c.now),
                        tasks := StealTable(c.engine, SimModel.StealerTable(c),
                                            HealthyNodes(SimModel.LiveNodes(c.tracker, c.agents, c.now)),
                                            {d}, {}, c.tasks))
    {
      var orphans := FindOrphaned(tasks, {d});
      OrphansListed(tasks, {d});
      if |orphans| > 0 {
        var nodes := SeeLiveNodes();
        StealOrphansOf(d, nodes);
      }
    }

    method HandleNodeDeath(d: NodeId)
      requires Valid()
      modifies tracker, agents, tasks
      ensures Valid() && View() == SimModel.HandleDeath(old(View()), d)
    {
      KillAll(d);
      ReassignOrphans(d);
    }

    method Append(change: SimModel.Stamped)
      requires Valid()
      modifies this`changes
      ensures View() == old(View()).(changes := old(View()).changes + [change])
    {
      changes := changes + [change];
    }

    /** The callback registered with the health registry. */
    method OnStateChange(id: NodeId, was: NodeState, state: NodeState)
      requires Valid()
      modifies this, tracker, agents, tasks
      ensures Valid() && tasks == old(tasks) && now == old(now)
      ensures View() == SimModel.OnChange(old(View()), id, was, state)
    {
      if was != state {
        Append(SimModel.Stamped(now, Change(id, was, state)));
        if state == Dead {
          HandleNodeDeath(id);
        }
      }
    }

    /** The submitted object enters the table, in place of the one that had its id. */
    method EnterTask(task: TaskSpec)
      requires Valid()
      modifies this`tasks
      ensures Valid() && tasks == PutSpec(old(tasks), task)
      ensures View() == old(View()).(tasks := Views(tasks))
    {
      PutSpecUnique(tasks, task);
      tasks := PutSpec(tasks, task);
    }

    method PlaceTask(task: TaskSpec, nodes: seq<Node>)
      modifies task
      ensures task.View() == match Place(stealer.engine, old(task.View()), nodes)
                             case Some(p) => old(task.View()).(node := Some(p.node), state := Running)
                             case None => old(task.View()).(state := Pending)
    {
      var placement := Place(stealer.engine, task.View(), nodes);
      if placement.Some? {
        task.node := Some(placement.value.node);
        task.state := Running;
      } else {
        task.state := Pending;
      }
    }

    /** The submitted object is placed; `values` are what the table's objects held before the submission. */
    method PlaceEntered(task: TaskSpec, nodes: seq<Node>, ghost specs: seq<TaskSpec>, ghost values: seq<Task>)
      requires Valid() && UniqueKeys(specs) && tasks == PutSpec(specs, task)
      requires |values| == |specs| && forall i :: 0 <= i < |specs| ==> values[i].id == specs[i].id
      requires forall i :: 0 <= i < |specs| && specs[i] != task ==> specs[i].View() == values[i]
      modifies task
      ensures Valid()
      ensures View() == old(View()).(tasks := SimModel.Put(values, task.View()))
      ensures task.View() == match Place(stealer.engine, old(task.View()), nodes)
                             case Some(p) => old(task.View()).(node := Some(p.node), state := Running)
                             case None => old(task.View()).(state := Pending)
    {
      ghost var c := View();
      PlaceTask(task, nodes);
      PutSpecViews(specs, task, values);
      assert AgentViews(agents) == c.agents && tracker.View() == c.tracker && manager.table == c.checkpoints;
    }

    method Submit(task: TaskSpec)
      requires Valid()
      modifies this, tracker, task
      ensures Valid() && now == old(now) && forall t :: t in tasks ==> t == task || t in old(tasks)
      ensures View() == SimModel.SubmitTask(old(View()), old(task.View()))
    {
      ghost var specs, values := tasks, Views(tasks);
      EnterTask(task);
      var nodes := SeeLiveNodes();
      PlaceEntered(task, nodes, specs, values);
    }

    method MarkDeadNode(id: NodeId) returns (was: NodeState)
      requires Valid()
      modifies tracker
      ensures Valid() && was == StateOf(old(View()).tracker, id)
      ensures View() == old(View()).(tracker := MarkDead(old(View()).tracker, id))
    {
      ghost var c := View();
      was := StateOf(tracker.View(), id);
      tracker.MarkNodeDead(id);
      assert AgentViews(agents) == c.agents && Views(tasks) == c.tasks && manager.table == c.checkpoints;
    }

    method PerformKill(id: NodeId)
      requires Valid()
      modifies this, tracker, agents, tasks
      ensures Valid() && tasks == old(tasks) && now == old(now)
      ensures View() == SimModel.KillNode(old(View()), id)
    {
      KillAll(id);
      var was := MarkDeadNode(id);
      OnStateChange(id, was, Dead);
    }

    method PreemptAll(id: NodeId, spike: real)
      requires Valid()
      modifies agents
      ensures Valid() && View() == old(View()).(agents := SimModel.Spiked(old(View()).agents, id, spike))
    {
      ghost var c := View();
      PreemptAgents(agents, id, spike);
      assert Views(tasks) == c.tasks && tracker.View() == c.tracker && manager.table == c.checkpoints;
    }

    method DrainAll(id: NodeId, pct: real)
      requires Valid()
      modifies agents
      ensures Valid() && View() == old(View()).(agents := SimModel.Drained(old(View()).agents, id, pct))
    {
      ghost var c := View();
      DrainAgents(agents, id, pct);
      assert Views(tasks) == c.tasks && tracker.View() == c.tracker && manager.table == c.checkpoints;
    }

    method PerformOnAgents(a: SimModel.Action)
      requires Valid() && (a.Crash? || a.Preempt? || a.Drain?)
      modifies agents
      ensures Valid() && View() == SimModel.Perform(old(View()), a)
    {
      match a
      case Crash(id) => KillAll(id);
      case Preempt(id, spike) => PreemptAll(id, spike);
      case Drain(id, pct) => DrainAll(id, pct);
    }

    /** A submission that comes as an event makes its task object when it fires. */
    method PerformSubmit(t: Task)
      requires Valid()
      modifies this, tracker
      ensures Valid() && now == old(now) && (forall x :: x in tasks ==> x in old(tasks) || fresh(x))
      ensures View() == SimModel.SubmitTask(old(View()), t)
    {
      var task := new TaskSpec(t);
      Submit(task);
    }

    method PerformHour(hour: int)
      requires Valid()
      modifies stealer
      ensures Valid()
      ensures View() == old(View()).(engine := old(View()).engine.(hour := hour))
    {
      stealer.engine := stealer.engine.(hour := hour);
    }

    method Perform(a: SimModel.Action)
      requires Valid()
      modifies this, tracker, stealer, agents, tasks
      ensures Valid() && now == old(now) && (forall t :: t in tasks ==> t in old(tasks) || fresh(t))
      ensures View() == SimModel.Perform(old(View()), a)
    {
      match a
      case Kill(id) => PerformKill(id);
      case Crash(id) => PerformOnAgents(a);
      case Preempt(id, spike) => PerformOnAgents(a);
      case Drain(id, pct) => PerformOnAgents(a);
      case Submit(t) => PerformSubmit(t);
      case HourPasses(hour) => PerformHour(hour);
    }

    method ScheduleEvent(at: real, a: SimModel.Action)
      requires Valid()
      modifies this`events
      ensures Valid() && View() == SimModel.Schedule(old(View()), at, a)
    {
      events := Sort(events + [SimModel.Event(at, a)], SimModel.Earlier);
    }

    method PopEvent() returns (event: SimModel.Event)
      requires Valid() && |events| > 0
      modifies this`events
      ensures Valid() && event == old(events[0]) && View() == old(View()).(events := old(events)[1..])
    {
      ghost var c := View();
      event := events[0];
      events := events[1..];
      assert AgentViews(agents) == c.agents && Views(tasks) == c.tasks;
    }

    method FireEvents()
      requires Valid()
      modifies this, tracker, stealer, agents, tasks
      ensures Valid() && now == old(now) && (forall t :: t in tasks ==> t in old(tasks) || fresh(t))
      ensures View() == SimModel.FireEvents(old(View()))
    {
      while |events| > 0 && events[0].at <= now
        invariant Valid() && now == old(now) && (forall t :: t in tasks ==> t in old(tasks) || fresh(t))
        invariant SimModel.FireEvents(View()) == SimModel.FireEvents(old(View()))
        decreases |events|
      {
        var event := PopEvent();
        assert forall i :: 0 <= i < |tasks| ==> tasks[i] in old(tasks) || fresh(tasks[i]);
        Perform(event.action);
      }
    }

    method RecordBeat(id: NodeId) returns (was: NodeState)
      requires Valid()
      modifies tracker
      ensures Valid() && was == StateOf(old(View()).tracker, id)
      ensures View() == old(View()).(tracker := Beat(old(View()).tracker, id, now))
    {
      ghost var c := View();
      was := StateOf(tracker.View(), id);
      tracker.RecordHeartbeat(id, now);
      assert AgentViews(agents) == c.agents && Views(tasks) == c.tasks && manager.table == c.checkpoints;
    }

    method BeatAgent(i: nat)
      requires Valid() && i < |agents|
      modifies this, tracker, agents, tasks
      ensures Valid() && tasks == old(tasks) && now == old(now)
      ensures View() == SimModel.BeatAgent(old(View()), i)
    {
      assert View().agents[i] == agents[i].View();
      if agents[i].alive {
        var was := RecordBeat(agents[i].base.id);
        OnStateChange(agents[i].base.id, was, Healthy);
      }
    }

    method BeatAll()
      requires Valid()
      modifies this, tracker, agents, tasks
      ensures Valid() && tasks == old(tasks) && now == old(now)
      ensures View() == SimModel.BeatFrom(old(View()), 0)
    {
      for i := 0 to |agents|
        invariant Valid() && tasks == old(tasks) && now == old(now)
        invariant SimModel.BeatFrom(View(), i) == SimModel.BeatFrom(old(View()), 0)
      {
        BeatAgent(i);
      }
    }

    method ReadState(id: NodeId) returns (was: NodeState, state: NodeState)
      requires Valid()
      modifies tracker
      ensures Valid() && was == StateOf(old(View()).tracker, id) && state == Evaluate(old(View()).tracker, id, now).1
      ensures View() == old(View()).(tracker := Evaluate(old(View()).tracker, id, now).0)
    {
      ghost var c := View();
      was := StateOf(tracker.View(), id);
      state := tracker.EvaluateNode(id, now);
      assert AgentViews(agents) == c.agents && Views(tasks) == c.tasks && manager.table == c.checkpoints;
    }

    method EvaluateNode(id: NodeId)
      requires Valid()
      modifies this, tracker, agents, tasks
      ensures Valid() && tasks == old(tasks) && now == old(now)
      ensures View() == SimModel.EvaluateNode(old(View()), id)
    {
      var was, state := ReadState(id);
      OnStateChange(id, was, state);
    }

    method EvaluateAll()
      requires Valid()
      modifies this, tracker, agents, tasks
      ensures Valid() && tasks == old(tasks) && now == old(now)
      ensures View() == SimModel.EvaluateNodes(old(View()), old(tracker.known))
    {
      var ids := tracker.known;
      assert ids[0..] == ids;
      for i := 0 to |ids|
        invariant Valid() && tasks == old(tasks) && now == old(now)
        invariant SimModel.EvaluateNodes(View(), ids[i..]) == SimModel.EvaluateNodes(old(View()), ids)
      {
        assert ids[i..][1..] == ids[i + 1..];
        EvaluateNode(ids[i]);
      }
    }

    method Advance()
      requires Valid()
      modifies manager, tasks
      ensures Valid()
      ensures var c := old(View());
              var advanced := SimModel.AdvanceAll(c.tasks, c.tick);
              View() == c.(tasks := advanced, checkpoints := SimModel.SaveRunning(c.checkpoints, advanced, c.now))
    {
      ghost var c := View();
      AdvanceTasks(tasks, tick, manager, now);
      assert AgentViews(agents) == c.agents && tracker.View() == c.tracker;
    }

    method Complete()
      requires Valid()
      modifies tasks
      ensures Valid()
      ensures View() == old(View()).(tasks := SimModel.CompleteAll(old(View()).tasks))
    {
      ghost var c := View();
      CompleteTasks(tasks);
      assert AgentViews(agents) == c.agents && tracker.View() == c.tracker && manager.table == c.checkpoints;
    }

    /** Running tasks advance and are saved, then finished ones complete. */
    method Work()
      requires Valid()
      modifies manager, tasks
      ensures Valid()
      ensures View() == SimModel.WorkPhase(old(View()))
    {
      Advance();
      Complete();
    }

    method BeatAndEvaluate()
      requires Valid()
      modifies this, tracker, agents, tasks
      ensures Valid() && tasks == old(tasks) && now == old(now)
      ensures var beaten := SimModel.BeatFrom(old(View()), 0);
              View() == SimModel.EvaluateNodes(beaten, beaten.tracker.known)
    {
      BeatAll();
      EvaluateAll();
    }

    method CheckHealth()
      requires Valid()
      modifies this, tracker, stealer, agents, tasks
      ensures Valid() && now == old(now) && (forall t :: t in tasks ==> t in old(tasks) || fresh(t))
      ensures View() == SimModel.HealthPhase(old(View()))
    {
      FireEvents();
      assert forall i :: 0 <= i < |tasks| ==> tasks[i] in old(tasks) || fresh(tasks[i]);
      BeatAndEvaluate();
    }

    method Tick()
      requires Valid()
      modifies this, tracker, stealer, manager, agents, tasks
      ensures Valid() && now == old(now) && (forall t :: t in tasks ==> t in old(tasks) || fresh(t))
      ensures View() == SimModel.WorkPhase(SimModel.HealthPhase(old(View())))
    {
      CheckHealth();
      assert forall i :: 0 <= i < |tasks| ==> tasks[i] in old(tasks) || fresh(tasks[i]);
      Work();
    }

    method AdvanceClock()
      requires Valid()
      modifies this`now
      ensures Valid() && View() == old(View()).(now := old(now) + tick)
    {
      ghost var c := View();
      now := now + tick;
      assert AgentViews(agents) == c.agents && Views(tasks) == c.tasks;
    }

    method Round()
      requires Valid()
      modifies this, tracker, stealer, manager, agents, tasks
      ensures Valid() && now == old(now) + tick && (forall t :: t in tasks ==> t in old(tasks) || fresh(t))
      ensures View() == SimModel.TickOnce(old(View()))
    {
      Tick();
      AdvanceClock();
    }

    /** One more round at the end of a trace of rounds; `left` bounds the rounds still to come. */
    method NextRound(ghost trace: seq<SimModel.Cluster>, until: real, ghost left: nat)
      returns (ghost longer: seq<SimModel.Cluster>)
      requires Valid() && SimModel.Rounds(trace) && trace[|trace| - 1] == View()
      requires now < until && Covers(left, tick, until - now)
      modifies this, tracker, stealer, manager, agents, tasks
      ensures Valid() && now == old(now) + tick && left > 0 && Covers(left - 1, tick, until - now)
      ensures forall i :: 0 <= i < |tasks| ==> tasks[i] in old(tasks) || fresh(tasks[i])
      ensures SimModel.Rounds(longer) && longer[0] == trace[0] && longer[|longer| - 1] == View()
    {
      ghost var span := until - now;
      CoversLess(left, tick, span);
      longer := trace + [SimModel.TickOnce(View())];
      SimModel.RoundsSnoc(trace, SimModel.TickOnce(View()));
      Round();
      assert until - now == span - tick;
    }

    /** `run(until)`: whole ticks until the clock reaches the given time; `trace` lists the states in between. */
    method Run(until: real) returns (ghost trace: seq<SimModel.Cluster>)
      requires Valid() && (now < until ==> tick > 0.0)
      modifies this, tracker, stealer, manager, agents, tasks
      ensures Valid() && SimModel.Rounds(trace) && trace[0] == old(View()) && trace[|trace| - 1] == View()
      ensures now >= until && (now == old(now) || now - tick < until)
    {
      ghost var start := View();
      trace := [start];
      ghost var left := Rounds(now, until, tick);
      while now < until
        invariant Valid() && (forall i :: 0 <= i < |tasks| ==> tasks[i] in old(tasks) || fresh(tasks[i]))
        invariant SimModel.Rounds(trace) && trace[0] == start && trace[|trace| - 1] == View()
        invariant Covers(left, tick, until - now)
        invariant now == old(now) || now - tick < until
        decreases left
      {
        trace := NextRound(trace, until, left);
        left := left - 1;
      }
    }
  }

  /** `n` rounds of length `tick` cover the time `span`. */
  ghost predicate Covers(n: nat, tick: real, span: real) {
    if n == 0 then span <= 0.0 else span <= 0.0 || Covers(n - 1, tick, span - tick)
  }

  lemma {:induction false} CoversLess(n: nat, tick: real, span: real)
    requires span > 0.0 && Covers(n, tick, span)
    ensures n > 0 && Covers(n - 1, tick, span - tick)
  {
  }

  lemma {:induction false} EnoughRounds(n: nat, tick: real, span: real)
    requires tick > 0.0 && span <= n as real * tick
    ensures Covers(n, tick, span)
  {
    if n > 0 {
      assert (n - 1) as real * tick == n as real * tick - tick;
      EnoughRounds(n - 1, tick, span - tick);
    }
  }

  lemma {:induction false} CoveredSpan(q: real, n: nat, tick: real, span: real)
    requires q * tick == span && q <= n as real && tick > 0.0
    ensures span <= n as real * tick
  {
    var m, gap := n as real, n as real - q;
    ScaledGap(gap, tick);
    assert m * tick == q * tick + gap * tick;
  }

  lemma {:induction false} ScaledGap(gap: real, tick: real)
    requires gap >= 0.0 && tick > 0.0
    ensures gap * tick >= 0.0
  {
  }

  lemma {:induction false} RoundsLeft(span: real, tick: real) returns (n: nat)
    requires tick > 0.0
    ensures Covers(n, tick, span)
  {
    var q := span / tick;
    assert q * tick == span;
    n := if q <= 0.0 then 0 else q.Floor + 1;
    CoveredSpan(q, n, tick, span);
    EnoughRounds(n, tick, span);
  }

  /** How many rounds `run` may still take. */
  lemma {:induction false} Rounds(now: real, until: real, tick: real) returns (n: nat)
    requires now < until ==> tick > 0.0
    ensures Covers(n, tick, until - now)
  {
    n := 0;
    if now < until {
      n := RoundsLeft(until - now, tick);
    }
  }
}
