/**
 * mesh/driver/job_manager.py: `handle_node_death`, which re-enters itself through the health callback of
 * mesh/driver/cluster.py while it forces the node's state to DEAD.
 */
module NodeDeath {
  import opened Models
  import opened Placement
  import opened Checkpointing
  import opened Stealing
  import opened Health

  /** What the driver holds; `nodes` are the registered nodes, `remotes` those with a live connection. */
  datatype Driver = Driver(
    engine: Engine,
    now: real,
    nodes: seq<Node>,
    remotes: set<NodeId>,
    tracker: Tracker,
    tasks: seq<Task>,
    checkpoints: Checkpoints,
    changes: seq<Change>)

  function WithState(nodes: seq<Node>, id: NodeId, state: NodeState): (r: seq<Node>)
    ensures |r| == |nodes|
    ensures forall i :: 0 <= i < |r| ==> r[i] == if nodes[i].id == id then nodes[i].(state := state) else nodes[i]
  {
    if |nodes| == 0 then []
    else [if nodes[0].id == id then nodes[0].(state := state) else nodes[0]] + WithState(nodes[1..], id, state)
  }

  /** `live_nodes` evaluates every registered node and drops the dead ones. */
  function LiveNodes(t: Tracker, nodes: seq<Node>, now: real): (Tracker, seq<Node>)
    decreases |nodes|
  {
    if |nodes| == 0 then (t, [])
    else
      var (t1, state) := Evaluate(t, nodes[0].id, now);
      var (t2, rest) := LiveNodes(t1, nodes[1..], now);
      (t2, (if state != Dead then [nodes[0].(state := state)] else []) + rest)
  }

  lemma {:induction false} LiveNodesStep(t: Tracker, nodes: seq<Node>, i: nat, now: real, live: seq<Node>)
    requires i < |nodes|
    ensures var (t1, state) := Evaluate(t, nodes[i].id, now);
            var (before, after) := (LiveNodes(t, nodes[i..], now), LiveNodes(t1, nodes[i + 1..], now));
            && before.0 == after.0
            && live + before.1 == (if state != Dead then live + [nodes[i].(state := state)] else live) + after.1
  {
    assert nodes[i..][1..] == nodes[i + 1..];
    var (t1, state) := Evaluate(t, nodes[i].id, now);
    var rest := LiveNodes(t1, nodes[i + 1..], now).1;
    assert live + ([nodes[i].(state := state)] + rest) == live + [nodes[i].(state := state)] + rest;
    assert [] + rest == rest;
  }

  /** The node is marked dead everywhere and loses its connection. */
  function Mark(s: Driver, d: NodeId): Driver {
    s.(nodes := WithState(s.nodes, d, Dead), remotes := s.remotes - {d}, tracker := MarkDead(s.tracker, d))
  }

  /** A stolen task whose new agent refuses it fails; `refused` says which tasks are refused. */
  function Dispatched(t: Task, was: Task, d: NodeId, refused: set<TaskId>): Task {
    if IsOrphan(was, {d}) && t.node.Some? && t.id in refused then t.(state := Failed) else t
  }

  function DispatchAll(ts: seq<Task>, was: seq<Task>, d: NodeId, refused: set<TaskId>): (r: seq<Task>)
    requires |ts| == |was|
    ensures |r| == |ts| && forall i :: 0 <= i < |r| ==> r[i] == Dispatched(ts[i], was[i], d, refused)
  {
    if |ts| == 0 then []
    else [Dispatched(ts[0], was[0], d, refused)] + DispatchAll(ts[1..], was[1..], d, refused)
  }

  /** Finding the orphans, stealing them and dispatching them again. */
  function Reassign(s: Driver, d: NodeId, refused: set<TaskId>): Driver {
    if !HasOrphan(s.tasks, {d}) then s
    else
      var (tracker, live) := LiveNodes(s.tracker, s.nodes, s.now);
      var stolen := StealTable(s.engine, s.checkpoints, HealthyNodes(live), {d}, {}, s.tasks);
      s.(tracker := tracker, tasks := DispatchAll(stolen, s.tasks, d, refused))
  }

  lemma {:induction false} ReassignIs(s: Driver, d: NodeId, refused: set<TaskId>, t: Tracker, live: seq<Node>,
                                      tasks: seq<Task>)
    requires HasOrphan(s.tasks, {d}) && (t, live) == LiveNodes(s.tracker, s.nodes, s.now)
    requires tasks == DispatchAll(StealTable(s.engine, s.checkpoints, HealthyNodes(live), {d}, {}, s.tasks), s.tasks,
                                  d, refused)
    ensures Reassign(s, d, refused) == s.(tracker := t, tasks := tasks)
  {
  }

  /** One call of `handle_node_death`, and how many calls it makes in all, itself included. */
  function HandleNodeDeath(s: Driver, d: NodeId, refused: set<TaskId>): (Driver, nat)
    decreases if StateOf(s.tracker, d) == Dead then 0 else 1
  {
    var was := StateOf(s.tracker, d);
    var marked := Mark(s, d);
    var (told, calls) :=
      if was == Dead then (marked, 0)
      else HandleNodeDeath(marked.(changes := marked.changes + [Change(d, was, Dead)]), d, refused);
    (Reassign(told, d, refused), calls + 1)
  }

  /** One node of `evaluate_all`, with the driver's callback. */
  function ReportNode(s: Driver, id: NodeId, refused: set<TaskId>): Driver {
    var was := StateOf(s.tracker, id);
    var (tracker, state) := Evaluate(s.tracker, id, s.now);
    if was == state then s.(tracker := tracker)
    else
      var noted := s.(tracker := tracker, changes := s.changes + [Change(id, was, state)]);
      if state == Dead then HandleNodeDeath(noted, id, refused).0 else noted
  }

  /** `evaluate_health` over the given nodes; `refused` says which tasks are refused while each of them is handled. */
  function ReportAll(s: Driver, ids: seq<NodeId>, refused: NodeId -> set<TaskId>): Driver
    decreases |ids|
  {
    if |ids| == 0 then s else ReportAll(ReportNode(s, ids[0], refused(ids[0])), ids[1..], refused)
  }

  // ---- the same as objects ----

  class DriverCluster {
    const stealer: WorkStealer
    const tracker: HeartbeatTracker
    var now: real
    var nodes: seq<Node>
    var remotes: set<NodeId>
    var tasks: seq<TaskSpec>
    var changes: seq<Change>

    function View(): Driver
      reads this, tracker, stealer, stealer.checkpoints, tasks
    {
      Driver(stealer.engine, now, nodes, remotes, tracker.View(), Views(tasks), stealer.checkpoints.table, changes)
    }

    constructor (stealer: WorkStealer, tracker: HeartbeatTracker, now: real, nodes: seq<Node>, remotes: set<NodeId>,
                 tasks: seq<TaskSpec>)
      ensures this.stealer == stealer && this.tracker == tracker && this.tasks == tasks
      ensures View() == Driver(stealer.engine, now, nodes, remotes, tracker.View(), Views(tasks),
                               stealer.checkpoints.table, [])
    {
      this.stealer, this.tracker, this.now := stealer, tracker, now;
      this.nodes, this.remotes, this.tasks, this.changes := nodes, remotes, tasks, [];
    }

    method Live() returns (live: seq<Node>)
      modifies tracker
      ensures (tracker.View(), live) == LiveNodes(old(tracker.View()), nodes, now)
    {
      live := [];
      ghost var goal := LiveNodes(tracker.View(), nodes, now);
      assert nodes[0..] == nodes && [] + goal.1 == goal.1;
      for i := 0 to |nodes|
        invariant goal.0 == LiveNodes(tracker.View(), nodes[i..], now).0
        invariant goal.1 == live + LiveNodes(tracker.View(), nodes[i..], now).1
      {
        LiveNodesStep(tracker.View(), nodes, i, now, live);
        var state := tracker.EvaluateNode(nodes[i].id, now);
        if state != Dead {
          live := live + [nodes[i].(state := state)];
        }
      }
      assert live + [] == live;
    }

    /** `refused` stands for the agents' answers to the dispatched assignments. */
    method Redispatch(ghost was: seq<Task>, d: NodeId, orphans: set<TaskSpec>, refused: set<TaskId>)
      requires Distinct(tasks) && |was| == |tasks|
      requires forall i :: 0 <= i < |tasks| ==> (tasks[i] in orphans <==> IsOrphan(was[i], {d}))
      modifies tasks
      ensures Views(tasks) == DispatchAll(old(Views(tasks)), was, d, refused)
    {
      ghost var before := Views(tasks);
      for i := 0 to |tasks|
        invariant forall j :: 0 <= j < i ==> tasks[j].View() == Dispatched(before[j], was[j], d, refused)
        invariant forall j :: i <= j < |tasks| ==> tasks[j].View() == before[j]
      {
        if tasks[i] in orphans && tasks[i].node.Some? && tasks[i].id in refused {
          tasks[i].state := Failed;
        }
      }
    }

    /** The stealer and the table are as `s` says. */
    ghost predicate AgreesWith(s: Driver)
      reads this, stealer, stealer.checkpoints, tasks
    {
      Views(tasks) == s.tasks && stealer.engine == s.engine && stealer.checkpoints.table == s.checkpoints
    }

    method StealAndDispatch(d: NodeId, live: seq<Node>, orphans: set<TaskSpec>, refused: set<TaskId>, ghost s: Driver)
      requires Distinct(tasks) && AgreesWith(s)
      requires forall i :: 0 <= i < |tasks| ==> (tasks[i] in orphans <==> IsOrphan(s.tasks[i], {d}))
      modifies tasks
      ensures tracker.View() == old(tracker.View())
      ensures AgreesWith(s.(tasks := DispatchAll(
                                StealTable(s.engine, s.checkpoints, HealthyNodes(live), {d}, {}, s.tasks),
                                s.tasks, d, refused)))
    {
      StealFrom(stealer, tasks, {d}, live);
      Redispatch(s.tasks, d, orphans, refused);
    }

    method ReassignOrphans(d: NodeId, refused: set<TaskId>)
      requires Distinct(tasks)
      modifies this, tracker, tasks
      ensures tasks == old(tasks) && View() == Reassign(old(View()), d, refused)
    {
      var orphans := FindOrphaned(tasks, {d});
      OrphansListed(tasks, {d});
      if |orphans| == 0 {
        return;
      }
      StealLive(d, (set x | x in orphans), refused);
    }

    method StealLive(d: NodeId, orphans: set<TaskSpec>, refused: set<TaskId>)
      requires Distinct(tasks) && HasOrphan(Views(tasks), {d})
      requires forall i :: 0 <= i < |tasks| ==> (tasks[i] in orphans <==> IsOrphan(Views(tasks)[i], {d}))
      modifies tracker, tasks
      ensures View() == Reassign(old(View()), d, refused)
    {
      ghost var s := View();
      var live := Live();
      ghost var t := tracker.View();
      assert Views(tasks) == s.tasks;
      StealAndDispatch(d, live, orphans, refused, s);
      ReassignIs(s, d, refused, t, live, Views(tasks));
    }

    /** The callback that the health registry makes, after it has stored the new state. */
    method OnStateChange(d: NodeId, was: NodeState, state: NodeState, refused: set<TaskId>) returns (ghost calls: nat)
      requires Distinct(tasks) && StateOf(tracker.View(), d) == state
      modifies this, tracker, tasks
      ensures tasks == old(tasks)
      ensures var noted := old(View()).(changes := old(changes) + [Change(d, was, state)]);
              (View(), calls) == if state == Dead then HandleNodeDeath(noted, d, refused) else (noted, 0)
      decreases 0, 1
    {
      changes := changes + [Change(d, was, state)];
      calls := 0;
      if state == Dead {
        calls := HandleDeath(d, refused);
      }
    }

    method HandleDeath(d: NodeId, refused: set<TaskId>) returns (ghost calls: nat)
      requires Distinct(tasks)
      modifies this, tracker, tasks
      ensures tasks == old(tasks) && (View(), calls) == HandleNodeDeath(old(View()), d, refused)
      decreases if StateOf(tracker.View(), d) == Dead then 0 else 1, 0
    {
      nodes := WithState(nodes, d, Dead);
      remotes := remotes - {d};
      var was := StateOf(tracker.View(), d);
      tracker.MarkNodeDead(d);
      calls := 0;
      assert View() == Mark(old(View()), d);
      if was != Dead {
        calls := OnStateChange(d, was, Dead, refused);
      }
      ReassignOrphans(d, refused);
      calls := calls + 1;
    }

    method EvaluateNode(id: NodeId, refused: set<TaskId>)
      requires Distinct(tasks) && id in tracker.last
      modifies this, tracker, tasks
      ensures tasks == old(tasks) && tracker.last == old(tracker.last)
      ensures View() == ReportNode(old(View()), id, refused)
    {
      ghost var s := View();
      HandledHistory(s, id, refused);
      var was := StateOf(tracker.View(), id);
      var state := tracker.EvaluateNode(id, now);
      assert View() == s.(tracker := Evaluate(s.tracker, id, s.now).0);
      if was != state {
        var _ := OnStateChange(id, was, state, refused);
      }
    }

    /** `evaluate_health`: every known node is evaluated, and every change is handled as it is found. */
    method EvaluateHealth(refused: NodeId -> set<TaskId>)
      requires Distinct(tasks) && forall i :: 0 <= i < |tracker.known| ==> tracker.known[i] in tracker.last
      modifies this, tracker, tasks
      ensures tasks == old(tasks)
      ensures View() == ReportAll(old(View()), old(tracker.known), refused)
    {
      var ids := tracker.known;
      for i := 0 to |ids|
        invariant tasks == old(tasks) && tracker.last == old(tracker.last)
        invariant ReportAll(View(), ids[i..], refused) == ReportAll(old(View()), ids, refused)
      {
        assert ids[i..][1..] == ids[i + 1..];
        EvaluateNode(ids[i], refused(ids[i]));
      }
    }
  }

  // ---- what a death leaves behind ----

  ghost predicate Registered(nodes: seq<Node>, id: NodeId) {
    exists n :: n in nodes && n.id == id
  }

  /** `live_nodes` stores what it finds out about each registered node, and nothing else. */
  lemma {:induction false} LiveNodesStore(t: Tracker, nodes: seq<Node>, now: real, id: NodeId)
    ensures SameHistory(t, LiveNodes(t, nodes, now).0)
    ensures StateOf(LiveNodes(t, nodes, now).0, id) ==
      if Registered(nodes, id) && (id in t.last || id in t.explicitDead) then Evaluate(t, id, now).1 else StateOf(t, id)
    decreases |nodes|
  {
    if |nodes| > 0 {
      var t1 := Evaluate(t, nodes[0].id, now).0;
      EvaluateOnlyStates(t, nodes[0].id, now);
      LiveNodesStore(t1, nodes[1..], now, id);
      SameAnswer(t, t1, id, now);
      assert Registered(nodes, id) <==> nodes[0].id == id || Registered(nodes[1..], id);
    }
  }

  lemma {:induction false} ReassignHistory(s: Driver, d: NodeId, refused: set<TaskId>)
    ensures SameHistory(s.tracker, Reassign(s, d, refused).tracker)
  {
    LiveNodesStore(s.tracker, s.nodes, s.now, d);
  }

  /** Whatever a change leads to, no heartbeat is forgotten or made up. */
  lemma {:induction false} HandledHistory(s: Driver, id: NodeId, refused: set<TaskId>)
    ensures ReportNode(s, id, refused).tracker.last == s.tracker.last
  {
    var was := StateOf(s.tracker, id);
    var (tracker, state) := Evaluate(s.tracker, id, s.now);
    var noted := s.(tracker := tracker, changes := s.changes + [Change(id, was, state)]);
    ReentryIsOnce(noted, id, refused);
    var marked := Mark(noted, id);
    ReassignHistory(marked, id, refused);
    ReassignHistory(marked.(changes := marked.changes + [Change(id, StateOf(tracker, id), Dead)]), id, refused);
  }

  lemma {:induction false} LiveNodesSpareDead(t: Tracker, nodes: seq<Node>, now: real, d: NodeId)
    requires d in t.explicitDead
    ensures var (t', live) := LiveNodes(t, nodes, now);
            && d in t'.explicitDead && t'.explicitDead == t.explicitDead
            && (StateOf(t, d) == Dead ==> StateOf(t', d) == Dead)
            && forall n :: n in live ==> n.id != d
    decreases |nodes|
  {
    if |nodes| > 0 {
      LiveNodesSpareDead(Evaluate(t, nodes[0].id, now).0, nodes[1..], now, d);
    }
  }

  /** After reassignment nothing waits on the dead node, so a second reassignment has nothing to do. */
  lemma {:induction false} ReassignClears(s: Driver, d: NodeId, refused: set<TaskId>)
    requires d in s.tracker.explicitDead
    ensures !HasOrphan(Reassign(s, d, refused).tasks, {d})
    ensures |Reassign(s, d, refused).tasks| == |s.tasks|
    ensures forall i :: 0 <= i < |s.tasks| && !IsOrphan(s.tasks[i], {d}) ==>
      Reassign(s, d, refused).tasks[i] == s.tasks[i]
  {
    if HasOrphan(s.tasks, {d}) {
      var (tracker, live) := LiveNodes(s.tracker, s.nodes, s.now);
      LiveNodesSpareDead(s.tracker, s.nodes, s.now, d);
      var healthy := HealthyNodes(live);
      var stolen := StealTable(s.engine, s.checkpoints, healthy, {d}, {}, s.tasks);
      var r := Reassign(s, d, refused);
      forall i | 0 <= i < |s.tasks|
        ensures !IsOrphan(r.tasks[i], {d})
        ensures !IsOrphan(s.tasks[i], {d}) ==> r.tasks[i] == s.tasks[i]
      {
        var u := StealTableAt(s.engine, s.checkpoints, healthy, {d}, {}, s.tasks, i);
        if IsOrphan(s.tasks[i], {d}) {
          StealOneFacts(s.engine, s.checkpoints, healthy, u, s.tasks[i]);
        }
      }
    }
  }

  /** The node is marked, and the change has been told. */
  function Told(s: Driver, d: NodeId): Driver {
    var was := StateOf(s.tracker, d);
    if was == Dead then Mark(s, d) else Mark(s, d).(changes := s.changes + [Change(d, was, Dead)])
  }

  /** The whole call at once: mark, tell the callback if the node was not dead yet, and reassign a single time. */
  function HandleOnce(s: Driver, d: NodeId, refused: set<TaskId>): Driver {
    Reassign(Told(s, d), d, refused)
  }

  lemma {:induction false} MarkAgain(s: Driver, d: NodeId)
    requires StateOf(s.tracker, d) == Dead && d in s.tracker.explicitDead && d !in s.remotes
    requires d in s.tracker.states
    requires forall i :: 0 <= i < |s.nodes| && s.nodes[i].id == d ==> s.nodes[i].state == Dead
    ensures Mark(s, d) == s
  {
  }

  /**
   * Re-entry: the call makes one nested call exactly when the node was not known to be dead, never more, and
   * has the effect of a single pass: each orphan is stolen once.
   */
  lemma {:induction false} ReentryIsOnce(s: Driver, d: NodeId, refused: set<TaskId>)
    ensures HandleNodeDeath(s, d, refused).1 == if StateOf(s.tracker, d) == Dead then 1 else 2
    ensures HandleNodeDeath(s, d, refused).0 == HandleOnce(s, d, refused)
  {
    var was := StateOf(s.tracker, d);
    var marked := Mark(s, d);
    if was != Dead {
      var noted := marked.(changes := marked.changes + [Change(d, was, Dead)]);
      MarkAgain(noted, d);
      assert HandleNodeDeath(noted, d, refused) == (Reassign(noted, d, refused), 1);
      ReassignClears(noted, d, refused);
    }
  }

  /** Afterwards nothing is left on the node, tasks elsewhere are as they were, and the change was told at most once. */
  lemma {:induction false} DeathClearsNode(s: Driver, d: NodeId, refused: set<TaskId>)
    ensures var r := HandleNodeDeath(s, d, refused).0;
            && |r.tasks| == |s.tasks|
            && (forall i :: 0 <= i < |r.tasks| ==>
                  && !(r.tasks[i].node == Some(d)
                       && (r.tasks[i].state == Running || r.tasks[i].state == Paused
                           || r.tasks[i].state == Checkpointing))
                  && (s.tasks[i].node != Some(d)
                      || (s.tasks[i].state != Running && s.tasks[i].state != Paused
                          && s.tasks[i].state != Checkpointing)
                      ==> r.tasks[i] == s.tasks[i]))
            && r.changes == s.changes
                 + (if StateOf(s.tracker, d) == Dead then [] else [Change(d, StateOf(s.tracker, d), Dead)])
            && d !in r.remotes
  {
    ReentryIsOnce(s, d, refused);
    var was := StateOf(s.tracker, d);
    var marked := Mark(s, d);
    var noted := if was == Dead then marked else marked.(changes := marked.changes + [Change(d, was, Dead)]);
    ReassignClears(noted, d, refused);
    var r := HandleOnce(s, d, refused);
    forall i | 0 <= i < |r.tasks| ensures !IsOrphan(r.tasks[i], {d}) {
    }
    assert s.changes + [] == s.changes;
  }

  // ---- where the orphans go ----

  /** `live_nodes` lists exactly the registered nodes that are not found dead, each with the state it is found in. */
  lemma {:induction false} LiveNodesExactly(t: Tracker, nodes: seq<Node>, now: real, n: Node)
    ensures n in LiveNodes(t, nodes, now).1 <==>
      exists m :: m in nodes && Evaluate(t, m.id, now).1 != Dead && n == m.(state := Evaluate(t, m.id, now).1)
    decreases |nodes|
  {
    if |nodes| > 0 {
      var (t1, state) := Evaluate(t, nodes[0].id, now);
      EvaluateOnlyStates(t, nodes[0].id, now);
      LiveNodesExactly(t1, nodes[1..], now, n);
      forall m | m in nodes ensures Evaluate(t1, m.id, now).1 == Evaluate(t, m.id, now).1 {
        SameAnswer(t, t1, m.id, now);
      }
      assert forall m :: m in nodes <==> m == nodes[0] || m in nodes[1..];
    }
  }

  /** `n` is, with its state, a registered node other than `d` that is found healthy. */
  ghost predicate Serves(s: Driver, d: NodeId, n: Node) {
    exists m :: m in s.nodes && m.id != d && Evaluate(s.tracker, m.id, s.now).1 == Healthy && n == m.(state := Healthy)
  }

  lemma {:induction false} MarkedMembers(nodes: seq<Node>, d: NodeId, m: Node)
    requires m.id != d
    ensures m in WithState(nodes, d, Dead) <==> m in nodes
  {
    var marked := WithState(nodes, d, Dead);
    if m in nodes {
      var k :| 0 <= k < |nodes| && nodes[k] == m;
      assert marked[k] == m;
    }
    if m in marked {
      var k :| 0 <= k < |marked| && marked[k] == m;
      assert nodes[k] == m;
    }
  }

  lemma {:induction false} MarkedEvaluates(t: Tracker, d: NodeId, id: NodeId, now: real)
    ensures Evaluate(MarkDead(t, d), id, now).1 == if id == d then Dead else Evaluate(t, id, now).1
  {
  }

  /** Once `d` is marked dead, the live nodes that are healthy are the ones that serve. */
  lemma {:induction false} HealthyServe(s: Driver, d: NodeId, nodes: seq<Node>, t: Tracker, n: Node)
    requires nodes == WithState(s.nodes, d, Dead) && t == MarkDead(s.tracker, d)
    ensures n in HealthyNodes(LiveNodes(t, nodes, s.now).1) <==> Serves(s, d, n)
  {
    LiveNodesExactly(t, nodes, s.now, n);
    if n in HealthyNodes(LiveNodes(t, nodes, s.now).1) {
      var m :| m in nodes && Evaluate(t, m.id, s.now).1 != Dead && n == m.(state := Evaluate(t, m.id, s.now).1);
      MarkedEvaluates(s.tracker, d, m.id, s.now);
      MarkedMembers(s.nodes, d, m);
      assert n.state == Healthy;
    }
    if Serves(s, d, n) {
      var m :| m in s.nodes && m.id != d && Evaluate(s.tracker, m.id, s.now).1 == Healthy && n == m.(state := Healthy);
      ServerIsLive(s, d, nodes, t, m, n);
    }
  }

  lemma {:induction false} ServerIsLive(s: Driver, d: NodeId, nodes: seq<Node>, t: Tracker, m: Node, n: Node)
    requires nodes == WithState(s.nodes, d, Dead) && t == MarkDead(s.tracker, d)
    requires m in s.nodes && m.id != d && Evaluate(s.tracker, m.id, s.now).1 == Healthy && n == m.(state := Healthy)
    ensures n in HealthyNodes(LiveNodes(t, nodes, s.now).1)
  {
    LiveNodesExactly(t, nodes, s.now, n);
    MarkedEvaluates(s.tracker, d, m.id, s.now);
    MarkedMembers(s.nodes, d, m);
    assert Evaluate(t, m.id, s.now).1 == Healthy;
  }

  lemma {:induction false} TakenBeforeDispatch(was: seq<Task>, stolen: seq<Task>, d: NodeId, refused: set<TaskId>,
                                               i: nat, id: NodeId)
    requires |stolen| == |was| && i <= |was|
    ensures TakenBefore(was, DispatchAll(stolen, was, d, refused), {d}, i, id) <==> TakenBefore(was, stolen, {d}, i, id)
  {
  }

  /** What becomes of the orphan at index `i` when the nodes in `healthy` are offered and `refused` are refused. */
  ghost predicate OrphanReassigned(s: Driver, d: NodeId, refused: set<TaskId>, healthy: seq<Node>, r: seq<Task>, i: nat)
    requires |r| == |s.tasks| && i < |s.tasks|
  {
    && Resumed(s.checkpoints, s.tasks[i], r[i])
    && (r[i].node.Some? ==>
          && r[i].state == (if s.tasks[i].id in refused then Failed else Running)
          && (exists n :: n in healthy && n.id == r[i].node.value && Acceptable(s.engine, s.tasks[i], n))
          && (|healthy| != 1 ==> !TakenBefore(s.tasks, r, {d}, i, r[i].node.value)))
    && (r[i].node.None? ==>
          && r[i].state == Pending
          && forall n :: n in healthy && Acceptable(s.engine, s.tasks[i], n) ==>
               |healthy| != 1 && TakenBefore(s.tasks, r, {d}, i, n.id))
  }

  lemma {:induction false} DispatchMoves(s: Driver, d: NodeId, refused: set<TaskId>, healthy: seq<Node>,
                                         stolen: seq<Task>, r: seq<Task>, i: nat)
    requires |stolen| == |s.tasks| && r == DispatchAll(stolen, s.tasks, d, refused)
    requires i < |s.tasks| && IsOrphan(s.tasks[i], {d})
    requires OrphanMoved(s.engine, s.checkpoints, healthy, {d}, {}, s.tasks, stolen, i)
    ensures OrphanReassigned(s, d, refused, healthy, r, i)
  {
    assert r[i] == Dispatched(stolen[i], s.tasks[i], d, refused);
    forall id ensures TakenBefore(s.tasks, r, {d}, i, id) <==> TakenBefore(s.tasks, stolen, {d}, i, id) {
      TakenBeforeDispatch(s.tasks, stolen, d, refused, i, id);
    }
  }

  lemma {:induction false} ReassignMoves(s: Driver, d: NodeId, refused: set<TaskId>, i: nat)
    requires i < |s.tasks| && IsOrphan(s.tasks[i], {d})
    ensures |Reassign(s, d, refused).tasks| == |s.tasks|
    ensures OrphanReassigned(s, d, refused, HealthyNodes(LiveNodes(s.tracker, s.nodes, s.now).1),
                             Reassign(s, d, refused).tasks, i)
  {
    var healthy := HealthyNodes(LiveNodes(s.tracker, s.nodes, s.now).1);
    var stolen := StealTable(s.engine, s.checkpoints, healthy, {d}, {}, s.tasks);
    StealTableMoves(s.engine, s.checkpoints, healthy, {d}, {}, s.tasks, i);
    assert HasOrphan(s.tasks, {d});
    DispatchMoves(s, d, refused, healthy, stolen, Reassign(s, d, refused).tasks, i);
  }

  /** A list with unique ids that holds some node, and not exactly one node, holds another one. */
  lemma {:induction false} AnotherServes(healthy: seq<Node>, n: Node) returns (m: Node)
    requires UniqueNodes(healthy) && n in healthy && |healthy| != 1
    ensures m in healthy && m.id != n.id
  {
    var k :| 0 <= k < |healthy| && healthy[k] == n;
    m := healthy[if k == 0 then 1 else 0];
  }

  lemma {:induction false} LiveNodesUnique(t: Tracker, nodes: seq<Node>, now: real)
    requires UniqueNodes(nodes)
    ensures UniqueNodes(LiveNodes(t, nodes, now).1)
    decreases |nodes|
  {
    if |nodes| > 0 {
      var (t1, state) := Evaluate(t, nodes[0].id, now);
      var rest := LiveNodes(t1, nodes[1..], now).1;
      LiveNodesUnique(t1, nodes[1..], now);
      forall j | 0 <= j < |rest| ensures rest[j].id != nodes[0].id {
        LiveNodesExactly(t1, nodes[1..], now, rest[j]);
      }
    }
  }

  /**
   * `handle_node_death` reassigns: each orphan ends on a registered node other than `d` that is found healthy and is
   * acceptable for it, with the progress and the state of its checkpoint, and runs there unless its agent refuses
   * it. It stays pending only if every such node was taken by an orphan before it.
   */
  lemma {:induction false} DeathReassigns(s: Driver, d: NodeId, refused: set<TaskId>, i: nat)
    requires i < |s.tasks| && IsOrphan(s.tasks[i], {d})
    ensures var r := HandleNodeDeath(s, d, refused).0.tasks;
            && |r| == |s.tasks| && Resumed(s.checkpoints, s.tasks[i], r[i])
            && (r[i].node.Some? ==>
                  && r[i].state == (if s.tasks[i].id in refused then Failed else Running)
                  && exists n :: Serves(s, d, n) && n.id == r[i].node.value && Acceptable(s.engine, s.tasks[i], n))
            && (r[i].node.None? ==>
                  && r[i].state == Pending
                  && forall n :: Serves(s, d, n) && Acceptable(s.engine, s.tasks[i], n) ==>
                       TakenBefore(s.tasks, r, {d}, i, n.id))
  {
    var healthy := DeathOffers(s, d, refused, i);
  }

  /** The healthy nodes that are offered to the orphans. */
  lemma {:induction false} DeathOffers(s: Driver, d: NodeId, refused: set<TaskId>, i: nat) returns (healthy: seq<Node>)
    requires i < |s.tasks| && IsOrphan(s.tasks[i], {d})
    ensures forall n :: n in healthy <==> Serves(s, d, n)
    ensures UniqueNodes(s.nodes) ==> UniqueNodes(healthy)
    ensures var r := HandleNodeDeath(s, d, refused).0.tasks;
            |r| == |s.tasks| && OrphanReassigned(s, d, refused, healthy, r, i)
  {
    var told := Told(s, d);
    healthy := OffersServe(s, d, told.nodes, told.tracker);
    ReentryIsOnce(s, d, refused);
    ReassignMoves(told, d, refused, i);
    SameReassigned(s, told, d, refused, healthy, Reassign(told, d, refused).tasks, i);
  }

  lemma {:induction false} OffersServe(s: Driver, d: NodeId, nodes: seq<Node>, t: Tracker) returns (healthy: seq<Node>)
    requires nodes == WithState(s.nodes, d, Dead) && t == MarkDead(s.tracker, d)
    ensures healthy == HealthyNodes(LiveNodes(t, nodes, s.now).1)
    ensures forall n :: n in healthy <==> Serves(s, d, n)
    ensures UniqueNodes(s.nodes) ==> UniqueNodes(healthy)
  {
    healthy := HealthyNodes(LiveNodes(t, nodes, s.now).1);
    forall n ensures n in healthy <==> Serves(s, d, n) {
      HealthyServe(s, d, nodes, t, n);
    }
    if UniqueNodes(s.nodes) {
      LiveNodesUnique(t, nodes, s.now);
      FilterUnique(LiveNodes(t, nodes, s.now).1, (n: Node) => n.state == Healthy);
    }
  }

  lemma {:induction false} SameReassigned(s: Driver, told: Driver, d: NodeId, refused: set<TaskId>, healthy: seq<Node>,
                                          r: seq<Task>, i: nat)
    requires told.tasks == s.tasks && told.engine == s.engine && told.checkpoints == s.checkpoints
    requires |r| == |s.tasks| && i < |s.tasks| && OrphanReassigned(told, d, refused, healthy, r, i)
    ensures OrphanReassigned(s, d, refused, healthy, r, i)
  {
  }

  /**
   * Two orphans share a node exactly when the driver has no other choice: a single healthy node takes every orphan
   * it is acceptable for, and with more of them no node takes two.
   */
  lemma {:induction false} DeathSpreads(s: Driver, d: NodeId, refused: set<TaskId>, i: nat, n: Node)
    requires UniqueNodes(s.nodes) && i < |s.tasks| && IsOrphan(s.tasks[i], {d}) && Serves(s, d, n)
    ensures var r := HandleNodeDeath(s, d, refused).0.tasks;
            && |r| == |s.tasks|
            && (if forall m :: Serves(s, d, m) ==> m.id == n.id
                then r[i].node == (if Acceptable(s.engine, s.tasks[i], n) then Some(n.id) else None)
                else r[i].node.Some? ==> !TakenBefore(s.tasks, r, {d}, i, r[i].node.value))
  {
    var healthy := DeathOffers(s, d, refused, i);
    if |healthy| == 1 {
      OnlyOne(healthy, n);
    } else {
      var m := AnotherServes(healthy, n);
    }
    Spread(s, d, refused, healthy, HandleNodeDeath(s, d, refused).0.tasks, i, n);
  }

  lemma {:induction false} OnlyOne(healthy: seq<Node>, n: Node)
    requires |healthy| == 1 && n in healthy
    ensures forall m :: m in healthy ==> m == n
  {
  }

  lemma {:induction false} Spread(s: Driver, d: NodeId, refused: set<TaskId>, healthy: seq<Node>, r: seq<Task>, i: nat,
                                  n: Node)
    requires |r| == |s.tasks| && i < |s.tasks| && OrphanReassigned(s, d, refused, healthy, r, i)
    requires n in healthy && (|healthy| == 1 <==> forall m :: m in healthy ==> m.id == n.id)
    requires |healthy| == 1 ==> forall m :: m in healthy ==> m == n
    ensures if forall m :: m in healthy ==> m.id == n.id
            then r[i].node == (if Acceptable(s.engine, s.tasks[i], n) then Some(n.id) else None)
            else r[i].node.Some? ==> !TakenBefore(s.tasks, r, {d}, i, r[i].node.value)
  {
  }

  /** The rest of what a death does: the node is marked everywhere, and nothing else of the driver changes. */
  lemma {:induction false} DeathMarks(s: Driver, d: NodeId, refused: set<TaskId>)
    ensures var r := HandleNodeDeath(s, d, refused).0;
            && |r.nodes| == |s.nodes|
            && (forall k :: 0 <= k < |s.nodes| ==>
                  r.nodes[k] == if s.nodes[k].id == d then s.nodes[k].(state := Dead) else s.nodes[k])
            && (forall id :: id in r.remotes <==> id in s.remotes && id != d)
            && d in r.tracker.explicitDead && StateOf(r.tracker, d) == Dead
            && (forall id :: id != d ==> (id in r.tracker.explicitDead <==> id in s.tracker.explicitDead))
            && r.tracker.last == s.tracker.last && r.tracker.known == s.tracker.known
            && r.engine == s.engine && r.now == s.now && r.checkpoints == s.checkpoints
  {
    ReentryIsOnce(s, d, refused);
    ReassignMarks(Told(s, d), d, refused);
  }

  lemma {:induction false} ReassignMarks(s: Driver, d: NodeId, refused: set<TaskId>)
    requires d in s.tracker.explicitDead && StateOf(s.tracker, d) == Dead
    ensures var r := Reassign(s, d, refused);
            && r == s.(tracker := r.tracker, tasks := r.tasks)
            && SameHistory(s.tracker, r.tracker) && StateOf(r.tracker, d) == Dead
  {
    LiveNodesStore(s.tracker, s.nodes, s.now, d);
    LiveNodesSpareDead(s.tracker, s.nodes, s.now, d);
  }

  /** One node of `evaluate_all`: a change of its state is told exactly once, with the state it had and the new one. */
  lemma {:induction false} ReportNodeTells(s: Driver, id: NodeId, refused: set<TaskId>)
    requires id in s.tracker.last || id in s.tracker.explicitDead
    ensures var was, state := StateOf(s.tracker, id), Evaluate(s.tracker, id, s.now).1;
            ReportNode(s, id, refused).changes == s.changes + (if was == state then [] else [Change(id, was, state)])
  {
    var was := StateOf(s.tracker, id);
    var (tracker, state) := Evaluate(s.tracker, id, s.now);
    assert s.changes + [] == s.changes;
    if was != state && state == Dead {
      var noted := s.(tracker := tracker, changes := s.changes + [Change(id, was, state)]);
      DeathClearsNode(noted, id, refused);
      assert noted.changes + [] == noted.changes;
    }
  }

  /** The driver's health pass seen as the registry's. */
  function AsRegistry(s: Driver): Registry { Registry(s.tracker, s.changes) }

  /** A pass that finds no new death is the registry's pass: it stores and tells the same and touches nothing else. */
  lemma {:induction false} QuietPass(s: Driver, ids: seq<NodeId>, refused: NodeId -> set<TaskId>)
    requires Distinct(ids)
    requires forall k :: 0 <= k < |ids| && Evaluate(s.tracker, ids[k], s.now).1 == Dead ==>
      StateOf(s.tracker, ids[k]) == Dead
    ensures var r, q := ReportAll(s, ids, refused), EvaluateEach(AsRegistry(s), ids, s.now);
            r == s.(tracker := q.tracker, changes := q.log)
    decreases |ids|
  {
    if |ids| > 0 {
      var r := ReportNode(s, ids[0], refused(ids[0]));
      EvaluateOnlyStates(s.tracker, ids[0], s.now);
      assert AsRegistry(r) == EvaluateOne(AsRegistry(s), ids[0], s.now);
      forall k | 0 <= k < |ids[1..]| && Evaluate(r.tracker, ids[1..][k], r.now).1 == Dead
        ensures StateOf(r.tracker, ids[1..][k]) == Dead
      {
        assert ids[1..][k] == ids[k + 1] && ids[k + 1] != ids[0];
        SameAnswer(s.tracker, r.tracker, ids[k + 1], s.now);
      }
      QuietPass(r, ids[1..], refused);
    }
  }
}
