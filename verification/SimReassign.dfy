/** Where the simulated cluster puts tasks: on submission, and when a node dies. */
module SimReassign {
  import opened Models
  import opened Placement
  import opened Checkpointing
  import opened Stealing
  import opened Health
  import opened SimModel
  import opened SimSafety

  // ---- the nodes on offer ----

  /** `n` is what a live agent reports, with the state in which its heartbeats put it. */
  ghost predicate Reports(t: Tracker, agents: seq<Agent>, now: real, n: Node) {
    exists k :: 0 <= k < |agents| && agents[k].alive && n == agents[k].ToNode(Evaluate(t, agents[k].id, now).1)
  }

  lemma {:induction false} ReportsCons(t: Tracker, agents: seq<Agent>, now: real, n: Node)
    requires |agents| > 0
    ensures Reports(t, agents, now, n) <==>
      (agents[0].alive && n == agents[0].ToNode(Evaluate(t, agents[0].id, now).1)) || Reports(t, agents[1..], now, n)
  {
    if Reports(t, agents[1..], now, n) {
      var k :| 0 <= k < |agents[1..]| && agents[1..][k].alive
               && n == agents[1..][k].ToNode(Evaluate(t, agents[1..][k].id, now).1);
      assert agents[k + 1] == agents[1..][k];
    }
    if Reports(t, agents, now, n)
       && !(agents[0].alive && n == agents[0].ToNode(Evaluate(t, agents[0].id, now).1)) {
      var k :| 0 <= k < |agents| && agents[k].alive && n == agents[k].ToNode(Evaluate(t, agents[k].id, now).1);
      assert agents[1..][k - 1] == agents[k];
    }
  }

  lemma {:induction false} SameReports(a: Tracker, b: Tracker, agents: seq<Agent>, now: real, n: Node)
    requires SameHistory(a, b)
    ensures Reports(a, agents, now, n) <==> Reports(b, agents, now, n)
  {
    forall k | 0 <= k < |agents| ensures Evaluate(a, agents[k].id, now).1 == Evaluate(b, agents[k].id, now).1 {
      SameAnswer(a, b, agents[k].id, now);
    }
  }

  /**
   * What an agent has to offer: nothing once it is dead; while it is alive the idle part of its cores, seven tenths
   * of its memory, and the rest of what it has.
   */
  lemma {:induction false} AgentMeets(a: Agent, state: NodeState, req: Requirements)
    ensures var n := a.ToNode(state);
            && n.id == a.id && n.reliability == a.reliability && n.preemptible == a.preemptible
            && n.resources.cpuTotal == a.cores && n.resources.ramTotal == a.ram
    ensures a.ToNode(state).Meets(req) <==>
      && a.alive && state == Healthy
      && (req.cpu <= 0.0 || req.cpu <= a.cores as real * (1.0 - a.cpuUtilization))
      && 10.0 * req.ram <= 7.0 * a.ram
      && (req.gpuCount > 0 ==>
            && req.gpuCount <= a.gpuCount && (req.vram > 0.0 ==> req.vram <= a.vram)
            && (req.cuda.Some? && req.cuda.value.Version? && a.cuda.Some? && a.cuda.value.Version? ==>
                  req.cuda.value.major <= a.cuda.value.major))
      && (req.network > 0.0 ==> req.network <= a.network)
      && (req.minBattery.Some? && a.battery.Some? ==> req.minBattery.value <= a.battery.value)
  {
  }

  /** `_live_nodes` lists exactly the live agents' nodes. */
  lemma {:induction false} LiveNodesExactly(t: Tracker, agents: seq<Agent>, now: real, n: Node)
    ensures n in LiveNodes(t, agents, now) <==> Reports(t, agents, now, n)
    decreases |agents|
  {
    if |agents| > 0 {
      ReportsCons(t, agents, now, n);
      if agents[0].alive {
        var (t', state) := Evaluate(t, agents[0].id, now);
        EvaluateOnlyStates(t, agents[0].id, now);
        LiveNodesExactly(t', agents[1..], now, n);
        SameReports(t, t', agents[1..], now, n);
      } else {
        LiveNodesExactly(t, agents[1..], now, n);
      }
    }
  }

  // ---- submission ----

  /** The first task in the table with that id. */
  ghost predicate FirstAt(tasks: seq<Task>, i: nat, id: TaskId) {
    i < |tasks| && tasks[i].id == id && forall j :: 0 <= j < i ==> tasks[j].id != id
  }

  /** The table `r` is `tasks` with a task of that id at `i`, in the place of the first one or added at the end. */
  ghost predicate EnteredAt(tasks: seq<Task>, r: seq<Task>, id: TaskId, i: nat) {
    && FirstAt(r, i, id) && i <= |tasks| && |r| == (if i < |tasks| then |tasks| else |tasks| + 1)
    && (i < |tasks| ==> tasks[i].id == id)
    && (forall j :: 0 <= j < |tasks| && j != i ==> r[j] == tasks[j])
  }

  lemma {:induction false} PutFirst(tasks: seq<Task>, t: Task) returns (i: nat)
    ensures EnteredAt(tasks, Put(tasks, t), t.id, i) && Put(tasks, t)[i] == t
  {
    if |tasks| == 0 || tasks[0].id == t.id {
      i := 0;
    } else {
      var k := PutFirst(tasks[1..], t);
      i := k + 1;
      assert Put(tasks, t)[1..] == Put(tasks[1..], t);
      forall j | 0 <= j < |tasks| && j != i ensures Put(tasks, t)[j] == tasks[j] {
        assert j > 0 ==> Put(tasks, t)[j] == Put(tasks[1..], t)[j - 1] && tasks[j] == tasks[1..][j - 1];
      }
      forall j | 0 <= j < i ensures Put(tasks, t)[j].id != t.id {
        assert j > 0 ==> Put(tasks, t)[j] == Put(tasks[1..], t)[j - 1];
      }
    }
  }

  /** The task after it was offered to the nodes that live agents report. */
  ghost predicate PlacedAmong(c: Cluster, t: Task, r: Task) {
    || (&& r == t.(node := r.node, state := Running) && r.node.Some?
        && exists n :: && Reports(c.tracker, c.agents, c.now, n) && Acceptable(c.engine, t, n) && r.node == Some(n.id)
                       && NoneBetter(c, t, n))
    || (&& r == t.(state := Pending)
        && forall n :: Reports(c.tracker, c.agents, c.now, n) ==> !Acceptable(c.engine, t, n))
  }

  /** No acceptable node scores higher, and those that score the same have no smaller id. */
  ghost predicate NoneBetter(c: Cluster, t: Task, n: Node) {
    forall m :: Reports(c.tracker, c.agents, c.now, m) && Acceptable(c.engine, t, m) ==>
      var sn, sm := Score(c.engine.weights, n, t.req), Score(c.engine.weights, m, t.req);
      sn > sm || (sn == sm && LexLeq(n.id, m.id))
  }

  lemma {:induction false} PlaceAmong(c: Cluster, t: Task, p: Option<Placed>)
    requires p == Place(c.engine, t, LiveNodes(c.tracker, c.agents, c.now))
    ensures PlacedAmong(c, t,
                        if p.Some? then t.(node := Some(p.value.node), state := Running) else t.(state := Pending))
  {
    var nodes := LiveNodes(c.tracker, c.agents, c.now);
    PlaceIsMaximal(c.engine, t, nodes);
    forall n ensures n in nodes <==> Reports(c.tracker, c.agents, c.now, n) {
      LiveNodesExactly(c.tracker, c.agents, c.now, n);
    }
    if p.Some? {
      var n :| IsBest(c.engine, t, nodes, n) && p.value.node == n.id;
      assert NoneBetter(c, t, n);
    }
  }

  /**
   * Submitting a task puts it into the table, in the place of one with its id or at the end. It runs on the best of
   * the nodes that live agents report, and is pending if and only if none of them is acceptable for it. No other
   * task, no agent, no heartbeat and no checkpoint changes.
   */
  lemma {:induction false} SubmitPlaces(c: Cluster, t: Task) returns (i: nat)
    ensures var r := Perform(c, Submit(t));
            && EnteredAt(c.tasks, r.tasks, t.id, i)
            && PlacedAmong(c, t, r.tasks[i])
            && (r.tasks[i].state == Pending <==>
                  forall n :: Reports(c.tracker, c.agents, c.now, n) ==> !Acceptable(c.engine, t, n))
            && r == c.(tasks := r.tasks, tracker := r.tracker)
            && ReadAlive(c.tracker, c.agents, c.now, r.tracker)
  {
    var p := Place(c.engine, t, LiveNodes(c.tracker, c.agents, c.now));
    var placed := if p.Some? then t.(node := Some(p.value.node), state := Running) else t.(state := Pending);
    PlaceAmong(c, t, p);
    i := PutFirst(c.tasks, placed);
    EvaluateAliveReads(c.tracker, c.agents, c.now);
    SubmitIsPut(c, t, placed);
    PendingExactly(c, t, placed);
  }

  lemma {:induction false} SubmitIsPut(c: Cluster, t: Task, placed: Task)
    requires var p := Place(c.engine, t, LiveNodes(c.tracker, c.agents, c.now));
             placed == if p.Some? then t.(node := Some(p.value.node), state := Running) else t.(state := Pending)
    ensures Perform(c, Submit(t)) ==
      c.(tasks := Put(c.tasks, placed), tracker := EvaluateAlive(c.tracker, c.agents, c.now))
  {
  }

  lemma {:induction false} PendingExactly(c: Cluster, t: Task, r: Task)
    requires PlacedAmong(c, t, r)
    ensures r.state == Pending <==> forall n :: Reports(c.tracker, c.agents, c.now, n) ==> !Acceptable(c.engine, t, n)
  {
  }

  /** From `t` to `r` each live agent's state was read, which stores it if the agent is known or marked. */
  ghost predicate ReadAlive(t: Tracker, agents: seq<Agent>, now: real, r: Tracker) {
    && SameHistory(t, r)
    && forall id :: StateOf(r, id) ==
         if AliveAt(agents, id) && (id in t.last || id in t.explicitDead) then Evaluate(t, id, now).1
         else StateOf(t, id)
  }

  lemma {:induction false} EvaluateAliveReads(t: Tracker, agents: seq<Agent>, now: real)
    ensures ReadAlive(t, agents, now, EvaluateAlive(t, agents, now))
    decreases |agents|
  {
    if |agents| > 0 {
      var t1 := if agents[0].alive then Evaluate(t, agents[0].id, now).0 else t;
      EvaluateOnlyStates(t, agents[0].id, now);
      EvaluateAliveReads(t1, agents[1..], now);
      forall id ensures AliveAt(agents, id) <==> (agents[0].id == id && agents[0].alive) || AliveAt(agents[1..], id) {
        AliveAtCons(agents, id);
      }
      forall id ensures Evaluate(t1, id, now).1 == Evaluate(t, id, now).1 {
        SameAnswer(t, t1, id, now);
      }
    }
  }

  // ---- death ----

  /** `n` is the node of a live agent other than `d` that is found healthy. */
  ghost predicate Serves(c: Cluster, d: NodeId, n: Node) {
    exists k :: 0 <= k < |c.agents| && c.agents[k].alive && c.agents[k].id != d
                && Evaluate(c.tracker, c.agents[k].id, c.now).1 == Healthy && n == c.agents[k].ToNode(Healthy)
  }

  lemma {:induction false} HealthyServe(c: Cluster, d: NodeId, agents: seq<Agent>, n: Node)
    requires agents == Killed(c.agents, d)
    ensures n in HealthyNodes(LiveNodes(c.tracker, agents, c.now)) <==> Serves(c, d, n)
  {
    LiveNodesExactly(c.tracker, agents, c.now, n);
    if Serves(c, d, n) {
      var k :| 0 <= k < |c.agents| && c.agents[k].alive && c.agents[k].id != d
               && Evaluate(c.tracker, c.agents[k].id, c.now).1 == Healthy && n == c.agents[k].ToNode(Healthy);
      assert agents[k] == c.agents[k];
      assert Reports(c.tracker, agents, c.now, n) && n.state == Healthy;
    }
    if n in HealthyNodes(LiveNodes(c.tracker, agents, c.now)) {
      var k :| 0 <= k < |agents| && agents[k].alive
               && n == agents[k].ToNode(Evaluate(c.tracker, agents[k].id, c.now).1);
      assert agents[k] == c.agents[k];
    }
  }

  /** What becomes of the orphan at index `i` of the table. */
  ghost predicate OrphanServed(c: Cluster, d: NodeId, r: seq<Task>, i: nat)
    requires |r| == |c.tasks| && i < |c.tasks|
  {
    && Resumed(if c.shared then c.checkpoints else map[], c.tasks[i], r[i])
    && (r[i].node.Some? ==>
          && r[i].state == Running
          && exists n :: Serves(c, d, n) && n.id == r[i].node.value && Acceptable(c.engine, c.tasks[i], n))
    && (r[i].node.None? ==>
          && r[i].state == Pending
          && forall n :: Serves(c, d, n) && Acceptable(c.engine, c.tasks[i], n) ==>
               TakenBefore(c.tasks, r, {d}, i, n.id))
  }

  lemma {:induction false} MovedIsServed(c: Cluster, d: NodeId, healthy: seq<Node>, r: seq<Task>, i: nat)
    requires |r| == |c.tasks| && i < |c.tasks|
    requires OrphanMoved(c.engine, if c.shared then c.checkpoints else map[], healthy, {d}, {}, c.tasks, r, i)
    requires forall n :: n in healthy <==> Serves(c, d, n)
    ensures OrphanServed(c, d, r, i)
  {
  }

  /**
   * The death of a node: its agents stop, and each orphan runs on a live agent that is found healthy and acceptable
   * for it, with the progress and state of its checkpoint in the stealer's table. It stays pending only if every
   * such agent's node was taken by an orphan before it. Other tasks stay.
   */
  lemma {:induction false} DeathReassigns(c: Cluster, d: NodeId, i: nat)
    requires i < |c.tasks|
    ensures var r := HandleDeath(c, d);
            && |r.tasks| == |c.tasks|
            && (if IsOrphan(c.tasks[i], {d}) then OrphanServed(c, d, r.tasks, i) else r.tasks[i] == c.tasks[i])
            && r == c.(agents := r.agents, tracker := r.tracker, tasks := r.tasks)
            && (if exists j :: 0 <= j < |c.tasks| && IsOrphan(c.tasks[j], {d})
                then ReadAlive(c.tracker, r.agents, c.now, r.tracker) else r.tracker == c.tracker)
  {
    var agents := Killed(c.agents, d);
    EvaluateAliveReads(c.tracker, agents, c.now);
    if HasOrphan(c.tasks, {d}) {
      var cps := StealerTable(c);
      var healthy := HealthyNodes(LiveNodes(c.tracker, agents, c.now));
      if IsOrphan(c.tasks[i], {d}) {
        StealTableMoves(c.engine, cps, healthy, {d}, {}, c.tasks, i);
        forall n ensures n in healthy <==> Serves(c, d, n) {
          HealthyServe(c, d, agents, n);
        }
        MovedIsServed(c, d, healthy, HandleDeath(c, d).tasks, i);
      } else {
        var u := StealTableAt(c.engine, cps, healthy, {d}, {}, c.tasks, i);
      }
    }
  }

  /** Killing a node stops its agents, marks it, tells the change once, and moves its orphans like any death. */
  lemma {:induction false} KillReassigns(c: Cluster, d: NodeId, i: nat)
    requires i < |c.tasks|
    ensures var r, was := Perform(c, Kill(d)), StateOf(c.tracker, d);
            && |r.tasks| == |c.tasks|
            && (if was != Dead && IsOrphan(c.tasks[i], {d}) then OrphanServed(c, d, r.tasks, i)
                else r.tasks[i] == c.tasks[i])
            && d in r.tracker.explicitDead && r.tracker.last == c.tracker.last
            && !AliveAt(r.agents, d)
            && r.changes == c.changes + (if was == Dead then [] else [Stamped(c.now, Change(d, was, Dead))])
  {
    var was := StateOf(c.tracker, d);
    KilledKeepsAgents(c.agents, d);
    assert c.changes + [] == c.changes;
    if was != Dead {
      var m := Marked(c, d);
      var told := m.(changes := c.changes + [Stamped(c.now, Change(d, was, Dead))]);
      KilledKeepsAgents(m.agents, d);
      DeathReassigns(told, d, i);
      if IsOrphan(c.tasks[i], {d}) {
        MarkedServes(c, d, told);
        SameServed(c, d, told, HandleDeath(told, d).tasks, i);
      }
    }
  }

  /** Marking `d` does not change which other nodes serve. */
  lemma {:induction false} MarkedServes(c: Cluster, d: NodeId, m: Cluster)
    requires m.agents == Killed(c.agents, d) && m.tracker == MarkDead(c.tracker, d) && m.now == c.now
    ensures forall n :: Serves(m, d, n) <==> Serves(c, d, n)
  {
    forall k | 0 <= k < |c.agents| && c.agents[k].id != d
      ensures m.agents[k] == c.agents[k]
      ensures Evaluate(m.tracker, c.agents[k].id, c.now).1 == Evaluate(c.tracker, c.agents[k].id, c.now).1
    {
    }
    forall n ensures Serves(m, d, n) <==> Serves(c, d, n) {
      if Serves(c, d, n) {
        var k :| 0 <= k < |c.agents| && c.agents[k].alive && c.agents[k].id != d
                 && Evaluate(c.tracker, c.agents[k].id, c.now).1 == Healthy && n == c.agents[k].ToNode(Healthy);
        assert m.agents[k] == c.agents[k];
      }
    }
  }

  lemma {:induction false} SameServed(c: Cluster, d: NodeId, m: Cluster, r: seq<Task>, i: nat)
    requires m.tasks == c.tasks && m.engine == c.engine && m.shared == c.shared && m.checkpoints == c.checkpoints
    requires forall n :: Serves(m, d, n) <==> Serves(c, d, n)
    requires |r| == |c.tasks| && i < |c.tasks| && OrphanServed(m, d, r, i)
    ensures OrphanServed(c, d, r, i)
  {
  }
}
