/** Scheduled events of the simulated cluster: a due event acts exactly like the same action done at once. */
module SimEvents {
  import opened Sorting
  import opened Models
  import opened Placement
  import opened Health
  import opened SimModel
  import opened SimSafety

  // ---- the queue ----

  ghost predicate InOrder(events: seq<Event>) { Sorted(events, Earlier) }

  /** Scheduling adds one event to a queue that stays in order of time; of two for one time the earlier comes first. */
  lemma {:induction false} ScheduleKeepsOrder(c: Cluster, at: real, a: Action, k: real)
    requires InOrder(c.events)
    ensures var r := Schedule(c, at, a);
            && InOrder(r.events) && r == c.(events := r.events)
            && multiset(r.events) == multiset(c.events) + multiset{Event(at, a)}
            && Filter(r.events, (e: Event) => e.at == k)
               == Filter(c.events, (e: Event) => e.at == k) + (if at == k then [Event(at, a)] else [])
  {
    SortSorts(c.events + [Event(at, a)], Earlier);
    TiesKeepOrder(c.events, Event(at, a), k);
  }

  lemma {:induction false} TiesKeepOrder(events: seq<Event>, e: Event, k: real)
    ensures Filter(Sort(events + [e], Earlier), (x: Event) => x.at == k)
            == Filter(events, (x: Event) => x.at == k) + (if e.at == k then [e] else [])
  {
    SortIsStable(events + [e], Earlier, (x: Event) => x.at == k);
    FilterAppend(events, [e], (x: Event) => x.at == k);
    assert [e][1..] == [];
  }

  // ---- firing ----

  /** The actions of the events, as steps. */
  function Actions(events: seq<Event>): (r: seq<Step>)
    ensures |r| == |events|
  {
    if |events| == 0 then [] else [Do(events[0].action)] + Actions(events[1..])
  }

  lemma {:induction false} HandleDeathIgnoresEvents(c: Cluster, d: NodeId, es: seq<Event>)
    ensures HandleDeath(c.(events := es), d) == HandleDeath(c, d).(events := es)
  {
  }

  lemma {:induction false} PerformIgnoresEvents(c: Cluster, a: Action, es: seq<Event>)
    ensures Perform(c.(events := es), a) == Perform(c, a).(events := es)
  {
    if a.Kill? {
      var was := StateOf(c.tracker, a.id);
      var told := Marked(c, a.id).(changes := c.changes + [Stamped(c.now, Change(a.id, was, Dead))]);
      HandleDeathIgnoresEvents(told, a.id, es);
      assert Marked(c.(events := es), a.id) == Marked(c, a.id).(events := es);
    }
  }

  lemma {:induction false} ActionsIgnoreEvents(c: Cluster, events: seq<Event>, es: seq<Event>)
    ensures RunSteps(c.(events := es), Actions(events)) == RunSteps(c, Actions(events)).(events := es)
    decreases |events|
  {
    if |events| > 0 {
      var a := events[0].action;
      PerformIgnoresEvents(c, a, es);
      assert Actions(events)[1..] == Actions(events[1..]);
      ActionsIgnoreEvents(Perform(c, a), events[1..], es);
    }
  }

  lemma {:induction false} ActionsCons(c: Cluster, events: seq<Event>, n: nat)
    requires n < |events|
    ensures RunSteps(c, Actions(events[..n + 1])) ==
      RunSteps(Perform(c, events[0].action), Actions(events[1..][..n]))
    ensures events[1..][n..] == events[n + 1..]
  {
    assert events[..n + 1][1..] == events[1..][..n];
    assert Actions(events[..n + 1])[1..] == Actions(events[1..][..n]);
  }

  /**
   * The start of a tick: the events at the head of the queue that are due leave it, and the cluster becomes what the
   * same actions, done one after the other without any queue, make of it.
   */
  lemma {:induction false} FiredAreActions(c: Cluster) returns (k: nat)
    ensures k <= |c.events|
    ensures forall j :: 0 <= j < k ==> c.events[j].at <= c.now
    ensures k < |c.events| ==> c.events[k].at > c.now
    ensures FireEvents(c) == RunSteps(c, Actions(c.events[..k])).(events := c.events[k..])
    decreases |c.events|
  {
    if |c.events| == 0 || c.events[0].at > c.now {
      k := 0;
      assert c.events[..0] == [] && c.events[0..] == c.events;
    } else {
      var a, tail := c.events[0].action, c.events[1..];
      var c1 := Perform(c, a);
      PerformIgnoresEvents(c, a, tail);
      var n := FiredAreActions(c1.(events := tail));
      k := n + 1;
      ActionsIgnoreEvents(c1, tail[..n], tail);
      ActionsCons(c, c.events, n);
    }
  }

  /** In an ordered queue exactly the events that are due fire. */
  lemma {:induction false} DueEventsFire(c: Cluster) returns (k: nat)
    requires InOrder(c.events)
    ensures k <= |c.events| && InOrder(FireEvents(c).events)
    ensures forall j :: 0 <= j < |c.events| ==> (j < k <==> c.events[j].at <= c.now)
    ensures FireEvents(c) == RunSteps(c, Actions(c.events[..k])).(events := c.events[k..])
  {
    k := FiredAreActions(c);
    forall j | k <= j < |c.events| ensures c.events[j].at > c.now {
      assert j > k ==> Earlier(c.events[k], c.events[j]);
    }
  }

  lemma {:induction false} HealthKeepsEvents(c: Cluster)
    ensures HealthPhase(c).events == FireEvents(c).events
  {
    var fired := FireEvents(c);
    BeatKeepsEvents(fired, 0);
    EvaluateKeepsEvents(BeatFrom(fired, 0), BeatFrom(fired, 0).tracker.known);
  }

  lemma {:induction false} BeatKeepsEvents(c: Cluster, i: nat)
    ensures BeatFrom(c, i).events == c.events
    decreases |c.agents| - i
  {
    if i < |c.agents| {
      BeatKeepsEvents(BeatAgent(c, i), i + 1);
    }
  }

  lemma {:induction false} EvaluateKeepsEvents(c: Cluster, ids: seq<NodeId>)
    ensures EvaluateNodes(c, ids).events == c.events
    decreases |ids|
  {
    if |ids| > 0 {
      EvaluateKeepsEvents(EvaluateNode(c, ids[0]), ids[1..]);
    }
  }

  /** In every run from an ordered queue it stays ordered, and after each tick no event at or before it is left. */
  lemma {:induction false} QueueStaysOrdered(c: Cluster, steps: seq<Step>)
    requires InOrder(c.events)
    ensures InOrder(RunSteps(c, steps).events)
    ensures |steps| > 0 && steps[|steps| - 1].Tick? ==>
      var last := RunSteps(c, steps[..|steps| - 1]);
      forall j :: 0 <= j < |RunSteps(c, steps).events| ==> RunSteps(c, steps).events[j].at > last.now
    decreases |steps|
  {
    if |steps| > 0 {
      var before, s := steps[..|steps| - 1], steps[|steps| - 1];
      QueueStaysOrdered(c, before);
      RunSnoc(c, before, s);
      assert steps == before + [s];
      StepKeepsOrder(RunSteps(c, before), s);
    }
  }

  lemma {:induction false} StepKeepsOrder(c: Cluster, s: Step)
    requires InOrder(c.events)
    ensures InOrder(StepOnce(c, s).events)
    ensures s.Tick? ==> forall j :: 0 <= j < |StepOnce(c, s).events| ==> StepOnce(c, s).events[j].at > c.now
  {
    match s
    case Tick =>
      var k := DueEventsFire(c);
      HealthKeepsEvents(c);
    case Do(a) =>
    case At(at, a) => SortSorts(c.events + [Event(at, a)], Earlier);
  }

  // ---- chaos ----

  lemma {:induction false} CoresLeft(cores: real, spike: real)
    requires cores >= 0.0
    ensures cores * (1.0 - spike) == cores - cores * spike
    ensures spike <= 1.0 ==> cores * (1.0 - spike) >= 0.0
    ensures spike >= 1.0 ==> cores * (1.0 - spike) <= 0.0
  {
    assert spike >= 1.0 ==> cores * (spike - 1.0) >= 0.0;
  }

  /** A preempted agent's node: its user is active, and it offers the cores that the spike leaves, if any. */
  lemma {:induction false} PreemptedOffers(c: Cluster, id: NodeId, spike: real, k: nat, state: NodeState)
    requires k < |c.agents|
    ensures var r := Perform(c, Preempt(id, spike));
            && r == c.(agents := r.agents) && |r.agents| == |c.agents|
            && var n, m, a := c.agents[k].ToNode(state), r.agents[k].ToNode(state), c.agents[k];
               if a.id != id then m == n
               else
                 && m == n.(resources := n.resources.(
                              userActive := true, cpuUtilization := spike, cpuFree := m.resources.cpuFree))
                 && (a.cores >= 0 ==>
                       m.resources.cpuFree ==
                         if a.alive && spike < 1.0 then a.cores as real - a.cores as real * spike else 0.0)
  {
    if c.agents[k].cores >= 0 {
      CoresLeft(c.agents[k].cores as real, spike);
    }
  }

  /** An agent with a battery below the pools' minimum is not given any task of a pool. */
  lemma {:induction false} DrainedIsClosed(c: Cluster, id: NodeId, pct: real, k: nat, state: NodeState, t: Task)
    requires k < |c.agents|
    ensures var r := Perform(c, Drain(id, pct));
            && r == c.(agents := r.agents) && |r.agents| == |c.agents|
            && var n, m := c.agents[k].ToNode(state), r.agents[k].ToNode(state);
               if c.agents[k].id != id || c.agents[k].battery.None? then m == n
               else
                 && m == n.(resources := n.resources.(battery := Some(pct)))
                 && (t.pool.Some? && pct < c.engine.router.batteryMin ==> !Acceptable(r.engine, t, m))
  {
    DrainedNode(c.agents[k], pct, state);
    LowBattery(c.engine, t, DrainOne(c.agents[k], pct).ToNode(state));
  }

  lemma {:induction false} DrainedNode(a: Agent, pct: real, state: NodeState)
    ensures var n, m := a.ToNode(state), DrainOne(a, pct).ToNode(state);
            m == if a.battery.None? then n else n.(resources := n.resources.(battery := Some(pct)))
  {
  }

  lemma {:induction false} LowBattery(e: Engine, t: Task, n: Node)
    ensures n.resources.battery.Some? && n.resources.battery.value < e.router.batteryMin && t.pool.Some? ==>
      !Acceptable(e, t, n)
  {
  }

  /** The hour opens and closes the night pool and changes nothing else. */
  lemma {:induction false} HourDecidesNight(c: Cluster, hour: int, t: Task, n: Node)
    ensures var r := Perform(c, HourPasses(hour));
            && r == c.(engine := r.engine)
            && (t.pool != Some(NightPool) ==> (Acceptable(r.engine, t, n) <==> Acceptable(c.engine, t, n)))
            && (t.pool == Some(NightPool) ==>
                  (Acceptable(r.engine, t, n) <==>
                     Acceptable(c.engine.(hour := hour), t, n) && c.engine.router.NightWindow(hour)))
  {
  }

  // ---- what the callback is told ----

  /** A heartbeat of a live agent tells a change if the agent was not taken for healthy; a dead agent sends none. */
  lemma {:induction false} BeatTold(c: Cluster, i: nat)
    requires i < |c.agents|
    ensures var r, a := BeatAgent(c, i), c.agents[i];
            var was := StateOf(c.tracker, a.id);
            && r == c.(tracker := r.tracker, changes := r.changes)
            && r.tracker == (if a.alive then Beat(c.tracker, a.id, c.now) else c.tracker)
            && r.changes == c.changes + (if !a.alive || was == Healthy then []
                                          else [Stamped(c.now, Change(a.id, was, Healthy))])
  {
    assert c.changes + [] == c.changes;
  }

  /** Evaluating a node tells the change it finds, with the time, and only a death does anything more. */
  lemma {:induction false} EvaluationTold(c: Cluster, id: NodeId)
    ensures var r, was, state := EvaluateNode(c, id), StateOf(c.tracker, id), Evaluate(c.tracker, id, c.now).1;
            && r.changes == c.changes + (if was == state then [] else [Stamped(c.now, Change(id, was, state))])
            && (was == state || state != Dead ==>
                  r == c.(tracker := Evaluate(c.tracker, id, c.now).0, changes := r.changes))
            && (was != state && state == Dead ==> !AliveAt(r.agents, id))
  {
    assert c.changes + [] == c.changes;
    KilledKeepsAgents(c.agents, id);
  }
}
