/** Safety of the simulated cluster over every run: where running tasks are, and what live agents look like. */
module SimSafety {
  import opened Sorting
  import opened Models
  import opened Placement
  import opened Checkpointing
  import opened Stealing
  import opened Health
  import opened SimModel

  ghost predicate AgentAt(agents: seq<Agent>, id: NodeId) {
    exists i :: 0 <= i < |agents| && agents[i].id == id
  }

  ghost predicate AliveAt(agents: seq<Agent>, id: NodeId) {
    exists i :: 0 <= i < |agents| && agents[i].id == id && agents[i].alive
  }

  /** The length of `k` intervals, added up one by one. */
  function Span(interval: real, k: int): real
    decreases if k < 0 then -k else k
  {
    if k == 0 then 0.0
    else if k > 0 then interval + Span(interval, k - 1)
    else Span(interval, k + 1) - interval
  }

  lemma {:induction false} SpanIsProduct(interval: real, k: int)
    ensures Span(interval, k) == interval * k as real
    decreases if k < 0 then -k else k
  {
    if k > 0 {
      SpanIsProduct(interval, k - 1);
      assert interval * k as real == interval + interval * (k - 1) as real;
    } else if k < 0 {
      SpanIsProduct(interval, k + 1);
      assert interval * k as real == interval * (k + 1) as real - interval;
    }
  }

  /** interval * dead_threshold (`SpanIsProduct`), as a sum to keep later proofs linear. */
  function TimeToDead(t: Tracker): real { Span(t.interval, t.deadAfter) }

  /** The same thresholds, hence the same time to dead. */
  ghost predicate SameTiming(a: Tracker, b: Tracker) {
    a.interval == b.interval && a.deadAfter == b.deadAfter
  }

  ghost predicate Known(t: Tracker) {
    forall id :: id in t.known <==> id in t.last
  }

  /** Every live agent has been heard of within the time to dead and is not taken for dead. */
  ghost predicate AliveOk(t: Tracker, agents: seq<Agent>, now: real) {
    forall i :: 0 <= i < |agents| && agents[i].alive ==>
      var id := agents[i].id;
      && id in t.last && id !in t.explicitDead
      && StateOf(t, id) != Dead
      && now - t.last[id] < TimeToDead(t)
  }

  ghost predicate RunsOn(t: Tracker, agents: seq<Agent>, node: Option<NodeId>) {
    node.Some? && AgentAt(agents, node.value) && StateOf(t, node.value) != Dead
  }

  /** Tasks are pending with no node, completed, or running on an agent that is not taken for dead. */
  ghost predicate TaskOk(t: Tracker, agents: seq<Agent>, task: Task) {
    && (task.state == Pending || task.state == Running || task.state == Completed)
    && (task.state == Pending ==> task.node == None)
    && (task.state == Running ==> RunsOn(t, agents, task.node))
  }

  ghost predicate Safe(c: Cluster) {
    && Known(c.tracker)
    && AliveOk(c.tracker, c.agents, c.now)
    && (forall i :: 0 <= i < |c.tasks| ==> TaskOk(c.tracker, c.agents, c.tasks[i]))
  }

  /** `Safe`, except that tasks may still be running on `d`, which has just been found dead. */
  ghost predicate SafeBut(c: Cluster, d: NodeId) {
    && Known(c.tracker)
    && AliveOk(c.tracker, c.agents, c.now)
    && StateOf(c.tracker, d) == Dead
    && (forall i :: 0 <= i < |c.tasks| ==>
          TaskOk(c.tracker, c.agents, c.tasks[i]) || (c.tasks[i].state == Running && c.tasks[i].node == Some(d)))
  }

  // ---- evaluating live agents ----

  lemma {:induction false} EvaluateAliveFacts(t: Tracker, agents: seq<Agent>, now: real, id: NodeId)
    requires forall i :: 0 <= i < |agents| && agents[i].alive ==> agents[i].id in t.last
    ensures var t' := EvaluateAlive(t, agents, now);
            && SameHistory(t, t')
            && StateOf(t', id) == (if AliveAt(agents, id) then Evaluate(t, id, now).1 else StateOf(t, id))
    decreases |agents|
  {
    if |agents| == 0 {
    } else {
      var t1 := if agents[0].alive then Evaluate(t, agents[0].id, now).0 else t;
      EvaluateOnlyStates(t, agents[0].id, now);
      EvaluateAliveFacts(t1, agents[1..], now, id);
      AliveAtCons(agents, id);
    }
  }

  lemma {:induction false} AliveAtCons(agents: seq<Agent>, id: NodeId)
    requires |agents| > 0
    ensures AliveAt(agents, id) <==> (agents[0].id == id && agents[0].alive) || AliveAt(agents[1..], id)
  {
  }

  lemma {:induction false} LiveNodesFacts(t: Tracker, agents: seq<Agent>, now: real, n: Node)
    requires n in LiveNodes(t, agents, now)
    ensures AliveAt(agents, n.id) && n.state == Evaluate(t, n.id, now).1
    decreases |agents|
  {
    AliveAtCons(agents, n.id);
    if agents[0].alive {
      var (t', state) := Evaluate(t, agents[0].id, now);
      EvaluateOnlyStates(t, agents[0].id, now);
      if n != agents[0].ToNode(state) {
        LiveNodesFacts(t', agents[1..], now, n);
      }
    } else {
      LiveNodesFacts(t, agents[1..], now, n);
    }
  }

  /** A node without an explicit mark is found dead exactly from the time to dead on. */
  lemma {:induction false} DeadByTimeout(t: Tracker, id: NodeId, now: real)
    requires id in t.last && id !in t.explicitDead
    ensures Evaluate(t, id, now).1 == Dead <==> now - t.last[id] >= TimeToDead(t)
    ensures StateOf(Evaluate(t, id, now).0, id) == Evaluate(t, id, now).1
  {
    EvaluateExactly(t, id, now);
    SpanIsProduct(t.interval, t.deadAfter);
  }

  lemma {:induction false} AliveNotDead(t: Tracker, agents: seq<Agent>, now: real, id: NodeId)
    requires AliveOk(t, agents, now) && AliveAt(agents, id)
    ensures id in t.last && id !in t.explicitDead && Evaluate(t, id, now).1 != Dead && StateOf(t, id) != Dead
  {
    DeadByTimeout(t, id, now);
  }

  /** Silent evaluation of live agents keeps them, and keeps every running task's node from being dead. */
  lemma {:induction false} EvaluateAliveSafe(t: Tracker, agents: seq<Agent>, now: real)
    requires AliveOk(t, agents, now)
    ensures var t' := EvaluateAlive(t, agents, now);
            && AliveOk(t', agents, now) && SameHistory(t, t')
            && (forall id :: StateOf(t', id) == Dead <==> StateOf(t, id) == Dead)
  {
    var t' := EvaluateAlive(t, agents, now);
    EvaluateAliveFacts(t, agents, now, "");
    forall id ensures StateOf(t', id) == Dead <==> StateOf(t, id) == Dead {
      EvaluateAliveFacts(t, agents, now, id);
      if AliveAt(agents, id) {
        AliveNotDead(t, agents, now, id);
      }
    }
  }

  /** A task placed on a live node runs on a live agent that is taken for healthy. */
  lemma {:induction false} PlacedOnLive(t: Tracker, agents: seq<Agent>, now: real, n: Node)
    requires AliveOk(t, agents, now) && n in LiveNodes(t, agents, now) && n.state == Healthy
    ensures RunsOn(EvaluateAlive(t, agents, now), agents, Some(n.id))
  {
    LiveNodesFacts(t, agents, now, n);
    EvaluateAliveFacts(t, agents, now, n.id);
  }

  // ---- the death handler ----

  /** A stolen task either runs on a live healthy node or is pending with none. */
  lemma {:induction false} StolenOk(e: Engine, cps: Checkpoints, t: Tracker, agents: seq<Agent>, now: real,
                                    used: set<NodeId>, task: Task)
    requires AliveOk(t, agents, now)
    ensures TaskOk(EvaluateAlive(t, agents, now), agents,
                   StealOne(e, cps, HealthyNodes(LiveNodes(t, agents, now)), used, task))
  {
    var healthy := HealthyNodes(LiveNodes(t, agents, now));
    StealOneFacts(e, cps, healthy, used, task);
    var r := StealOne(e, cps, healthy, used, task);
    if r.node.Some? {
      var n :| n in healthy && n.id == r.node.value;
      PlacedOnLive(t, agents, now, n);
    }
  }

  lemma {:induction false} HandleDeathSafe(c: Cluster, d: NodeId)
    requires SafeBut(c, d)
    ensures Safe(HandleDeath(c, d)) && StateOf(HandleDeath(c, d).tracker, d) == Dead
  {
    var agents := Killed(c.agents, d);
    assert AliveOk(c.tracker, agents, c.now);
    KilledKeepsAgents(c.agents, d);
    var r := HandleDeath(c, d);
    if HasOrphan(c.tasks, {d}) {
      EvaluateAliveSafe(c.tracker, agents, c.now);
      var healthy := HealthyNodes(LiveNodes(c.tracker, agents, c.now));
      forall i | 0 <= i < |r.tasks| ensures TaskOk(r.tracker, agents, r.tasks[i]) {
        var u := StealTableAt(c.engine, StealerTable(c), healthy, {d}, {}, c.tasks, i);
        if IsOrphan(c.tasks[i], {d}) {
          StolenOk(c.engine, StealerTable(c), c.tracker, agents, c.now, u, c.tasks[i]);
        }
      }
    } else {
      forall i | 0 <= i < |r.tasks| ensures TaskOk(r.tracker, agents, r.tasks[i]) {
        assert !IsOrphan(c.tasks[i], {d});
      }
    }
  }

  lemma {:induction false} KilledKeepsAgents(agents: seq<Agent>, d: NodeId)
    ensures forall id :: AgentAt(Killed(agents, d), id) <==> AgentAt(agents, id)
    ensures forall id :: AliveAt(Killed(agents, d), id) <==> AliveAt(agents, id) && id != d
  {
  }

  /** The callback restores safety after any change of one node's state. */
  lemma {:induction false} OnChangeSafe(c: Cluster, id: NodeId, was: NodeState, state: NodeState)
    requires StateOf(c.tracker, id) == state
    requires if state == Dead && was != Dead then SafeBut(c, id) else Safe(c)
    ensures Safe(OnChange(c, id, was, state))
    ensures state == Dead ==> StateOf(OnChange(c, id, was, state).tracker, id) == Dead
  {
    if was != state && state == Dead {
      HandleDeathSafe(c.(changes := c.changes + [Stamped(c.now, Change(id, was, state))]), id);
    }
  }

  // ---- every operation keeps safety ----

  /** Submitted tasks are new: pending and on no node. */
  ghost predicate NewTask(a: Action) {
    a.Submit? ==> a.task.state == Pending && a.task.node == None
  }

  lemma {:induction false} PutMembers(tasks: seq<Task>, t: Task, x: Task)
    requires x in Put(tasks, t)
    ensures x == t || x in tasks
  {
    if |tasks| > 0 && tasks[0].id != t.id && x != tasks[0] {
      PutMembers(tasks[1..], t, x);
    }
  }

  lemma {:induction false} SubmitSafe(c: Cluster, t: Task)
    requires Safe(c) && t.state == Pending && t.node == None
    ensures Safe(SubmitTask(c, t)) && SameTiming(SubmitTask(c, t).tracker, c.tracker)
  {
    var r := SubmitTask(c, t);
    var nodes := LiveNodes(c.tracker, c.agents, c.now);
    EvaluateAliveSafe(c.tracker, c.agents, c.now);
    PlaceIsMaximal(c.engine, t, nodes);
    var placed := match Place(c.engine, t, nodes)
                  case Some(p) => t.(node := Some(p.node), state := Running)
                  case None => t.(state := Pending);
    if Place(c.engine, t, nodes).Some? {
      var n :| IsBest(c.engine, t, nodes, n) && Place(c.engine, t, nodes).value.node == n.id;
      PlacedOnLive(c.tracker, c.agents, c.now, n);
    }
    forall i | 0 <= i < |r.tasks| ensures TaskOk(r.tracker, r.agents, r.tasks[i]) {
      PutMembers(c.tasks, placed, r.tasks[i]);
      if r.tasks[i] != placed {
        var j :| 0 <= j < |c.tasks| && c.tasks[j] == r.tasks[i];
        assert TaskOk(c.tracker, c.agents, c.tasks[j]);
      }
    }
  }

  lemma {:induction false} SameAgentsSafe(c: Cluster, agents: seq<Agent>)
    requires Safe(c) && |agents| == |c.agents|
    requires forall i :: 0 <= i < |agents| ==>
      agents[i].id == c.agents[i].id && (agents[i].alive ==> c.agents[i].alive)
    ensures Safe(c.(agents := agents))
  {
  }

  function Marked(c: Cluster, id: NodeId): Cluster {
    c.(agents := Killed(c.agents, id), tracker := MarkDead(c.tracker, id))
  }

  lemma {:induction false} MarkedSafe(c: Cluster, id: NodeId)
    requires Safe(c)
    ensures SafeBut(Marked(c, id), id)
    ensures StateOf(c.tracker, id) == Dead ==> Safe(Marked(c, id))
  {
    var agents := Killed(c.agents, id);
    SameAgentsSafe(c, agents);
    var m := Marked(c, id);
    assert StateOf(m.tracker, id) == Dead;
    assert forall n :: n != id ==> StateOf(m.tracker, n) == StateOf(c.tracker, n);
    forall i | 0 <= i < |m.tasks|
      ensures TaskOk(m.tracker, agents, m.tasks[i])
              || (StateOf(c.tracker, id) != Dead && m.tasks[i].state == Running && m.tasks[i].node == Some(id))
    {
      assert TaskOk(c.tracker, agents, c.tasks[i]);
    }
  }

  lemma {:induction false} KillSafe(c: Cluster, id: NodeId)
    requires Safe(c)
    ensures Safe(Perform(c, Kill(id))) && SameTiming(Perform(c, Kill(id)).tracker, c.tracker)
  {
    MarkedSafe(c, id);
    OnChangeSafe(Marked(c, id), id, StateOf(c.tracker, id), Dead);
    OnChangeHistory(Marked(c, id), id, StateOf(c.tracker, id), Dead);
  }

  lemma {:induction false} PerformSafe(c: Cluster, a: Action)
    requires Safe(c) && NewTask(a)
    ensures Safe(Perform(c, a)) && SameTiming(Perform(c, a).tracker, c.tracker)
  {
    match a
    case Kill(id) => KillSafe(c, id);
    case Crash(id) => SameAgentsSafe(c, Killed(c.agents, id));
    case Preempt(id, spike) => SameAgentsSafe(c, Spiked(c.agents, id, spike));
    case Drain(id, pct) => SameAgentsSafe(c, Drained(c.agents, id, pct));
    case Submit(t) => SubmitSafe(c, t);
    case HourPasses(hour) =>
  }

  ghost predicate NewEvents(events: seq<Event>) {
    forall i :: 0 <= i < |events| ==> NewTask(events[i].action)
  }

  lemma {:induction false} FireSafe(c: Cluster)
    requires Safe(c) && NewEvents(c.events)
    ensures Safe(FireEvents(c)) && NewEvents(FireEvents(c).events)
    ensures FireEvents(c).now == c.now && FireEvents(c).tick == c.tick
    ensures SameTiming(FireEvents(c).tracker, c.tracker)
    decreases |c.events|
  {
    if |c.events| == 0 || c.events[0].at > c.now {
    } else {
      var c1 := c.(events := c.events[1..]);
      assert Safe(c1);
      PerformSafe(c1, c.events[0].action);
      FireSafe(Perform(c1, c.events[0].action));
    }
  }

  lemma {:induction false} BeatSafe(c: Cluster, i: nat)
    requires Safe(c) && i < |c.agents| && TimeToDead(c.tracker) > 0.0
    ensures var r := BeatAgent(c, i);
            && Safe(r) && SameTiming(r.tracker, c.tracker) && r.agents == c.agents && r.tasks == c.tasks
            && (c.agents[i].alive ==> r.tracker.last == c.tracker.last[c.agents[i].id := c.now])
            && (!c.agents[i].alive ==> r.tracker.last == c.tracker.last)
  {
    if c.agents[i].alive {
      var id := c.agents[i].id;
      var t := Beat(c.tracker, id, c.now);
      var c1 := c.(tracker := t);
      assert forall n :: n != id ==> StateOf(t, n) == StateOf(c.tracker, n);
      forall j | 0 <= j < |c.tasks| ensures TaskOk(t, c.agents, c.tasks[j]) {
        assert TaskOk(c.tracker, c.agents, c.tasks[j]);
      }
      OnChangeSafe(c1, id, StateOf(c.tracker, id), Healthy);
    }
  }

  /** After the heartbeats every live agent has been heard of at this very tick. */
  lemma {:induction false} BeatFromSafe(c: Cluster, i: nat)
    requires Safe(c) && TimeToDead(c.tracker) > 0.0 && i <= |c.agents|
    requires forall j :: 0 <= j < i && c.agents[j].alive ==>
      c.agents[j].id in c.tracker.last && c.tracker.last[c.agents[j].id] == c.now
    ensures var r := BeatFrom(c, i);
            && Safe(r) && SameFrame(c, r) && r.agents == c.agents && r.tasks == c.tasks
            && SameTiming(r.tracker, c.tracker)
            && (forall j :: 0 <= j < |r.agents| && r.agents[j].alive ==>
                  r.agents[j].id in r.tracker.last && r.tracker.last[r.agents[j].id] == r.now)
    decreases |c.agents| - i
  {
    if i < |c.agents| {
      BeatSafe(c, i);
      BeatFromSafe(BeatAgent(c, i), i + 1);
    }
  }

  lemma {:induction false} EvaluateNodeSafe(c: Cluster, id: NodeId)
    requires Safe(c) && id in c.tracker.last
    ensures var r := EvaluateNode(c, id);
            Safe(r) && SameHistory(c.tracker, r.tracker)
  {
    var (t, state) := Evaluate(c.tracker, id, c.now);
    EvaluateOnlyStates(c.tracker, id, c.now);
    var c1 := c.(tracker := t);
    if AliveAt(c.agents, id) {
      AliveNotDead(c.tracker, c.agents, c.now, id);
    }
    assert AliveOk(t, c.agents, c.now) by {
      forall i | 0 <= i < |c.agents| && c.agents[i].alive ensures StateOf(t, c.agents[i].id) != Dead {
        assert AliveAt(c.agents, c.agents[i].id);
      }
    }
    forall i | 0 <= i < |c.tasks|
      ensures TaskOk(t, c.agents, c.tasks[i]) ||
              (state == Dead && StateOf(c.tracker, id) != Dead
               && c.tasks[i].state == Running && c.tasks[i].node == Some(id))
    {
      assert TaskOk(c.tracker, c.agents, c.tasks[i]);
    }
    OnChangeSafe(c1, id, StateOf(c.tracker, id), state);
    OnChangeHistory(c1, id, StateOf(c.tracker, id), state);
  }

  lemma {:induction false} OnChangeHistory(c: Cluster, id: NodeId, was: NodeState, state: NodeState)
    requires AliveOk(c.tracker, c.agents, c.now)
    ensures SameHistory(c.tracker, OnChange(c, id, was, state).tracker)
  {
    if was != state && state == Dead {
      assert AliveOk(c.tracker, Killed(c.agents, id), c.now);
      EvaluateAliveSafe(c.tracker, Killed(c.agents, id), c.now);
    }
  }

  lemma {:induction false} EvaluateNodesSafe(c: Cluster, ids: seq<NodeId>)
    requires Safe(c) && forall i :: 0 <= i < |ids| ==> ids[i] in c.tracker.last
    ensures var r := EvaluateNodes(c, ids);
            Safe(r) && SameFrame(c, r) && SameHistory(c.tracker, r.tracker)
    decreases |ids|
  {
    if |ids| > 0 {
      EvaluateNodeSafe(c, ids[0]);
      EvaluateNodesSafe(EvaluateNode(c, ids[0]), ids[1..]);
    }
  }

  lemma {:induction false} EvaluateNodesAgents(c: Cluster, ids: seq<NodeId>)
    ensures var r := EvaluateNodes(c, ids);
            |r.agents| == |c.agents| &&
            forall i :: 0 <= i < |r.agents| ==>
              r.agents[i].id == c.agents[i].id && (r.agents[i].alive ==> c.agents[i].alive)
    decreases |ids|
  {
    if |ids| > 0 {
      EvaluateNodesAgents(EvaluateNode(c, ids[0]), ids[1..]);
    }
  }

  /** What every state between two steps satisfies. */
  ghost predicate Good(c: Cluster) {
    && Safe(c)
    && 0.0 <= c.tick < TimeToDead(c.tracker)
    && NewEvents(c.events)
  }

  ghost predicate HeardNow(c: Cluster) {
    forall j :: 0 <= j < |c.agents| && c.agents[j].alive ==>
      c.agents[j].id in c.tracker.last && c.tracker.last[c.agents[j].id] == c.now
  }

  lemma {:induction false} BeatPhaseSafe(c: Cluster)
    requires Good(c)
    ensures var r := BeatFrom(c, 0);
            Good(r) && HeardNow(r) && SameFrame(c, r) && SameTiming(r.tracker, c.tracker)
  {
    BeatFromSafe(c, 0);
  }

  lemma {:induction false} HeardCarries(c: Cluster, r: Cluster)
    requires HeardNow(c) && SameHistory(c.tracker, r.tracker) && r.now == c.now && |r.agents| == |c.agents|
    requires forall i :: 0 <= i < |r.agents| ==>
      r.agents[i].id == c.agents[i].id && (r.agents[i].alive ==> c.agents[i].alive)
    ensures HeardNow(r)
  {
  }

  lemma {:induction false} EvaluatePhaseSafe(c: Cluster)
    requires Good(c) && HeardNow(c)
    ensures var r := EvaluateNodes(c, c.tracker.known);
            Good(r) && HeardNow(r) && SameFrame(c, r) && SameTiming(r.tracker, c.tracker)
  {
    var r := EvaluateNodes(c, c.tracker.known);
    assert Safe(r) && SameFrame(c, r) && SameHistory(c.tracker, r.tracker) by {
      EvaluateNodesSafe(c, c.tracker.known);
    }
    assert HeardNow(r) by {
      EvaluateNodesAgents(c, c.tracker.known);
      HeardCarries(c, r);
    }
  }

  /** After the health phase every live agent was heard of at this tick and nothing runs on a dead node. */
  lemma {:induction false} HealthPhaseSafe(c: Cluster)
    requires Good(c)
    ensures var r := HealthPhase(c);
            && Good(r) && HeardNow(r) && r.now == c.now && r.tick == c.tick
            && SameTiming(r.tracker, c.tracker)
  {
    FireSafe(c);
    BeatPhaseSafe(FireEvents(c));
    EvaluatePhaseSafe(BeatFrom(FireEvents(c), 0));
  }

  lemma {:induction false} TickSafe(c: Cluster)
    requires Good(c)
    ensures Good(TickOnce(c))
  {
    HealthPhaseSafe(c);
    var h := HealthPhase(c);
    var r := TickOnce(c);
    forall i | 0 <= i < |r.tasks| ensures TaskOk(r.tracker, r.agents, r.tasks[i]) {
      assert TaskOk(h.tracker, h.agents, h.tasks[i]);
    }
  }

  lemma {:induction false} ScheduleSafe(c: Cluster, at: real, a: Action)
    requires Good(c) && NewTask(a)
    ensures Good(Schedule(c, at, a))
  {
    var events := c.events + [Event(at, a)];
    SortPermutes(events, Earlier);
    SameElements(Sort(events, Earlier), events);
    forall i | 0 <= i < |Sort(events, Earlier)| ensures NewTask(Sort(events, Earlier)[i].action) {
      assert Sort(events, Earlier)[i] in events;
    }
  }

  ghost predicate NewStep(s: Step) {
    s.Tick? || NewTask(s.action)
  }

  lemma {:induction false} StepGood(c: Cluster, s: Step)
    requires Good(c) && NewStep(s)
    ensures Good(StepOnce(c, s))
  {
    match s
    case Tick => TickSafe(c);
    case Do(a) => PerformSafe(c, a);
    case At(at, a) => ScheduleSafe(c, at, a);
  }

  lemma {:induction false} RunGood(c: Cluster, steps: seq<Step>)
    requires Good(c) && forall i :: 0 <= i < |steps| ==> NewStep(steps[i])
    ensures Good(RunSteps(c, steps))
    decreases |steps|
  {
    if |steps| > 0 {
      StepGood(c, steps[0]);
      RunGood(StepOnce(c, steps[0]), steps[1..]);
    }
  }

  /** A cluster as constructed: every agent registered now and alive, no tasks, no events. */
  ghost predicate Constructed(c: Cluster) {
    && Known(c.tracker)
    && c.tracker.explicitDead == {}
    && (forall i :: 0 <= i < |c.agents| ==>
          && c.agents[i].alive
          && c.agents[i].id in c.tracker.last && c.tracker.last[c.agents[i].id] == c.now
          && StateOf(c.tracker, c.agents[i].id) == Healthy)
    && c.tasks == [] && c.events == []
    && 0.0 <= c.tick < c.tracker.interval * c.tracker.deadAfter as real
  }

  // ---- without crashes that go unreported, running tasks are on live agents ----

  /** A dead agent has been reported dead. */
  ghost predicate Quiet(c: Cluster) {
    forall i :: 0 <= i < |c.agents| && !c.agents[i].alive ==>
      c.agents[i].id in c.tracker.explicitDead && StateOf(c.tracker, c.agents[i].id) == Dead
  }

  ghost predicate Reported(a: Action) { !a.Crash? }

  ghost predicate ReportedEvents(events: seq<Event>) {
    forall i :: 0 <= i < |events| ==> Reported(events[i].action)
  }

  lemma {:induction false} HandleDeathQuiet(c: Cluster, d: NodeId)
    requires SafeBut(c, d) && Quiet(c)
    requires AgentAt(c.agents, d) ==> d in c.tracker.explicitDead
    ensures Quiet(HandleDeath(c, d))
  {
    var agents := Killed(c.agents, d);
    assert AliveOk(c.tracker, agents, c.now);
    EvaluateAliveSafe(c.tracker, agents, c.now);
    forall i | 0 <= i < |agents| && !agents[i].alive ensures agents[i].id in c.tracker.explicitDead {
      if agents[i].id == d {
        assert AgentAt(c.agents, d);
      }
    }
  }

  lemma {:induction false} KillQuiet(c: Cluster, id: NodeId)
    requires Safe(c) && Quiet(c)
    ensures Quiet(KillNode(c, id))
  {
    MarkedSafe(c, id);
    var m, was := Marked(c, id), StateOf(c.tracker, id);
    if was != Dead {
      HandleDeathQuiet(m.(changes := m.changes + [Stamped(m.now, Change(id, was, Dead))]), id);
    }
  }

  lemma {:induction false} PerformQuiet(c: Cluster, a: Action)
    requires Safe(c) && Quiet(c) && NewTask(a) && Reported(a)
    ensures Quiet(Perform(c, a))
  {
    match a
    case Kill(id) => KillQuiet(c, id);
    case Crash(id) =>
    case Preempt(id, spike) =>
    case Drain(id, pct) =>
    case Submit(t) => EvaluateAliveSafe(c.tracker, c.agents, c.now);
    case HourPasses(hour) =>
  }

  lemma {:induction false} FireQuiet(c: Cluster)
    requires Safe(c) && NewEvents(c.events) && Quiet(c) && ReportedEvents(c.events)
    ensures Quiet(FireEvents(c)) && ReportedEvents(FireEvents(c).events)
    decreases |c.events|
  {
    if |c.events| == 0 || c.events[0].at > c.now {
    } else {
      var c1 := c.(events := c.events[1..]);
      assert Safe(c1) && Quiet(c1);
      PerformSafe(c1, c.events[0].action);
      PerformQuiet(c1, c.events[0].action);
      FireQuiet(Perform(c1, c.events[0].action));
    }
  }

  lemma {:induction false} BeatFromQuiet(c: Cluster, i: nat)
    requires Safe(c) && Quiet(c) && TimeToDead(c.tracker) > 0.0 && i <= |c.agents|
    ensures Quiet(BeatFrom(c, i)) && BeatFrom(c, i).events == c.events
    decreases |c.agents| - i
  {
    if i < |c.agents| {
      BeatSafe(c, i);
      BeatFromQuiet(BeatAgent(c, i), i + 1);
    }
  }

  lemma {:induction false} EvaluateNodeQuiet(c: Cluster, id: NodeId)
    requires Safe(c) && Quiet(c) && id in c.tracker.last
    ensures Quiet(EvaluateNode(c, id))
  {
    var (t, state) := Evaluate(c.tracker, id, c.now);
    var was := StateOf(c.tracker, id);
    EvaluateOnlyStates(c.tracker, id, c.now);
    if was != state && state == Dead {
      if AgentAt(c.agents, id) {
        var i :| 0 <= i < |c.agents| && c.agents[i].id == id;
        if c.agents[i].alive {
          AliveNotDead(c.tracker, c.agents, c.now, id);
        }
        assert false;
      }
      assert !AgentAt(c.agents, id);
      var agents := Killed(c.agents, id);
      assert agents == c.agents;
      assert AliveOk(t, agents, c.now);
      EvaluateAliveSafe(t, agents, c.now);
    }
  }

  lemma {:induction false} EvaluateNodesQuiet(c: Cluster, ids: seq<NodeId>)
    requires Safe(c) && Quiet(c) && forall i :: 0 <= i < |ids| ==> ids[i] in c.tracker.last
    ensures Quiet(EvaluateNodes(c, ids)) && EvaluateNodes(c, ids).events == c.events
    decreases |ids|
  {
    if |ids| > 0 {
      EvaluateNodeSafe(c, ids[0]);
      EvaluateNodeQuiet(c, ids[0]);
      EvaluateNodesQuiet(EvaluateNode(c, ids[0]), ids[1..]);
    }
  }

  lemma {:induction false} StepQuiet(c: Cluster, s: Step)
    requires Good(c) && NewStep(s) && Quiet(c) && ReportedEvents(c.events) && (s.Tick? || Reported(s.action))
    ensures Quiet(StepOnce(c, s)) && ReportedEvents(StepOnce(c, s).events)
  {
    match s
    case Tick =>
      FireSafe(c);
      FireQuiet(c);
      var fired := FireEvents(c);
      BeatFromSafe(fired, 0);
      BeatFromQuiet(fired, 0);
      var beaten := BeatFrom(fired, 0);
      EvaluateNodesQuiet(beaten, beaten.tracker.known);
    case Do(a) => PerformQuiet(c, a);
    case At(at, a) =>
      var events := c.events + [Event(at, a)];
      SortPermutes(events, Earlier);
      SameElements(Sort(events, Earlier), events);
      forall i | 0 <= i < |Sort(events, Earlier)| ensures Reported(Sort(events, Earlier)[i].action) {
        assert Sort(events, Earlier)[i] in events;
      }
  }

  lemma {:induction false} RunQuiet(c: Cluster, steps: seq<Step>)
    requires Good(c) && Quiet(c) && ReportedEvents(c.events)
    requires forall i :: 0 <= i < |steps| ==> NewStep(steps[i]) && (steps[i].Tick? || Reported(steps[i].action))
    ensures Good(RunSteps(c, steps)) && Quiet(RunSteps(c, steps))
    decreases |steps|
  {
    if |steps| > 0 {
      StepGood(c, steps[0]);
      StepQuiet(c, steps[0]);
      RunQuiet(StepOnce(c, steps[0]), steps[1..]);
    }
  }

  /**
   * Run safety: after any run from construction with new submissions, kills, preemptions and battery drains,
   * every task is pending with no node, completed, or running on an agent that is alive.
   */
  lemma {:induction false} RunSafety(c: Cluster, steps: seq<Step>, task: Task)
    requires Constructed(c)
    requires forall i :: 0 <= i < |steps| ==> NewStep(steps[i]) && (steps[i].Tick? || Reported(steps[i].action))
    requires task in RunSteps(c, steps).tasks
    ensures task.state == Pending || task.state == Running || task.state == Completed
    ensures task.state == Pending ==> task.node == None
    ensures task.state == Running ==> task.node.Some? && AliveAt(RunSteps(c, steps).agents, task.node.value)
  {
    SpanIsProduct(c.tracker.interval, c.tracker.deadAfter);
    RunQuiet(c, steps);
    var r := RunSteps(c, steps);
    var k :| 0 <= k < |r.tasks| && r.tasks[k] == task;
    assert TaskOk(r.tracker, r.agents, task);
    if task.state == Running {
      var i :| 0 <= i < |r.agents| && r.agents[i].id == task.node.value;
      assert r.agents[i].alive;
    }
  }
}
