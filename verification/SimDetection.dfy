/** The failure detector inside the simulated cluster: what it finds, when, and whom it leaves alone. */
module SimDetection {
  import opened Sorting
  import opened Models
  import opened Health
  import opened SimModel
  import opened SimSafety

  /** How often the callback was told that `id` died. */
  function DeadNotices(changes: seq<Stamped>, id: NodeId): nat {
    if |changes| == 0 then 0
    else
      var last := changes[|changes| - 1].change;
      DeadNotices(changes[..|changes| - 1], id) + (if last.node == id && last.state == Dead then 1 else 0)
  }

  lemma {:induction false} DeadNoticesSnoc(changes: seq<Stamped>, s: Stamped, id: NodeId)
    ensures DeadNotices(changes + [s], id) ==
      DeadNotices(changes, id) + (if s.change.node == id && s.change.state == Dead then 1 else 0)
  {
    assert (changes + [s])[..|changes|] == changes;
  }

  /** From `c` to `r` nothing the detector knows about `id` has changed. */
  ghost predicate Untouched(c: Cluster, r: Cluster, id: NodeId) {
    && (AliveAt(r.agents, id) <==> AliveAt(c.agents, id))
    && DeadNotices(r.changes, id) == DeadNotices(c.changes, id)
    && (StateOf(r.tracker, id) == Dead <==> StateOf(c.tracker, id) == Dead)
    && (id in r.tracker.explicitDead <==> id in c.tracker.explicitDead)
    && (!AliveAt(c.agents, id) && id in c.tracker.last ==>
          id in r.tracker.last && r.tracker.last[id] == c.tracker.last[id])
    && SameTiming(r.tracker, c.tracker)
  }

  lemma {:induction false} SameAlive(a: seq<Agent>, b: seq<Agent>, id: NodeId)
    requires |a| == |b| && forall i :: 0 <= i < |a| ==> b[i].id == a[i].id && b[i].alive == a[i].alive
    ensures AliveAt(a, id) <==> AliveAt(b, id)
  {
  }

  lemma {:induction false} KilledAlive(agents: seq<Agent>, d: NodeId, id: NodeId)
    ensures AliveAt(Killed(agents, d), id) <==> AliveAt(agents, id) && id != d
  {
    KilledKeepsAgents(agents, d);
  }

  /** What a death changes besides tasks: agents, and states that were not dead and stay so. */
  lemma {:induction false} HandleDeathFrame(c: Cluster, n: NodeId, id: NodeId)
    requires AliveOk(c.tracker, Killed(c.agents, n), c.now)
    ensures var r := HandleDeath(c, n);
            && r.agents == Killed(c.agents, n) && r.changes == c.changes && SameHistory(c.tracker, r.tracker)
            && (StateOf(r.tracker, id) == Dead <==> StateOf(c.tracker, id) == Dead)
  {
    EvaluateAliveSafe(c.tracker, Killed(c.agents, n), c.now);
  }

  lemma {:induction false} OnChangeUntouched(c: Cluster, n: NodeId, was: NodeState, state: NodeState, id: NodeId)
    requires n != id || state != Dead
    requires AliveOk(c.tracker, Killed(c.agents, n), c.now)
    ensures Untouched(c, OnChange(c, n, was, state), id)
  {
    if was != state {
      var stamped := Stamped(c.now, Change(n, was, state));
      DeadNoticesSnoc(c.changes, stamped, id);
      if state == Dead {
        KilledAlive(c.agents, n, id);
        HandleDeathFrame(c.(changes := c.changes + [stamped]), n, id);
      }
    }
  }

  /** Neither kills nor crashes `id`. */
  ghost predicate Spares(a: Action, id: NodeId) {
    (a.Kill? || a.Crash?) ==> a.id != id
  }

  lemma {:induction false} MarkedUntouched(c: Cluster, n: NodeId, id: NodeId)
    requires Safe(c) && n != id
    ensures Untouched(c, Marked(c, n), id)
    ensures AliveOk(Marked(c, n).tracker, Killed(Marked(c, n).agents, n), c.now)
  {
  }

  lemma {:induction false} PerformUntouched(c: Cluster, a: Action, id: NodeId)
    requires Safe(c) && Spares(a, id)
    ensures Untouched(c, Perform(c, a), id)
  {
    match a
    case Kill(n) =>
      MarkedUntouched(c, n, id);
      OnChangeUntouched(Marked(c, n), n, StateOf(c.tracker, n), Dead, id);
    case Crash(n) => KilledAlive(c.agents, n, id);
    case Preempt(n, spike) => SameAlive(c.agents, Spiked(c.agents, n, spike), id);
    case Drain(n, pct) => SameAlive(c.agents, Drained(c.agents, n, pct), id);
    case Submit(t) => EvaluateAliveSafe(c.tracker, c.agents, c.now);
    case HourPasses(hour) =>
  }

  ghost predicate EventsSpare(events: seq<Event>, id: NodeId) {
    forall i :: 0 <= i < |events| ==> Spares(events[i].action, id)
  }

  lemma {:induction false} FireUntouched(c: Cluster, id: NodeId)
    requires Safe(c) && NewEvents(c.events) && EventsSpare(c.events, id)
    ensures Untouched(c, FireEvents(c), id) && EventsSpare(FireEvents(c).events, id)
    decreases |c.events|
  {
    if |c.events| == 0 || c.events[0].at > c.now {
    } else {
      var c1 := c.(events := c.events[1..]);
      assert Safe(c1);
      PerformSafe(c1, c.events[0].action);
      PerformUntouched(c1, c.events[0].action, id);
      FireUntouched(Perform(c1, c.events[0].action), id);
    }
  }

  lemma {:induction false} BeatUntouched(c: Cluster, i: nat, id: NodeId)
    requires Safe(c) && i < |c.agents|
    ensures Untouched(c, BeatAgent(c, i), id)
  {
    if c.agents[i].alive {
      var n := c.agents[i].id;
      assert AliveAt(c.agents, n);
      var was := StateOf(c.tracker, n);
      if was != Healthy {
        DeadNoticesSnoc(c.changes, Stamped(c.now, Change(n, was, Healthy)), id);
      }
    }
  }

  lemma {:induction false} BeatFromUntouched(c: Cluster, i: nat, id: NodeId)
    requires Safe(c) && TimeToDead(c.tracker) > 0.0 && i <= |c.agents|
    ensures Untouched(c, BeatFrom(c, i), id) && BeatFrom(c, i).events == c.events
    decreases |c.agents| - i
  {
    if i < |c.agents| {
      BeatSafe(c, i);
      BeatUntouched(c, i, id);
      BeatFromUntouched(BeatAgent(c, i), i + 1, id);
    }
  }

  /** Evaluating a node leaves every other node alone, and leaves the node itself alone if its agent is live. */
  lemma {:induction false} EvaluateOtherUntouched(c: Cluster, n: NodeId, id: NodeId)
    requires Safe(c) && n in c.tracker.last && (n != id || AliveAt(c.agents, id))
    ensures Untouched(c, EvaluateNode(c, n), id)
  {
    var (t, state) := Evaluate(c.tracker, n, c.now);
    var c1 := c.(tracker := t);
    EvaluatedUntouched(c, n, id);
    OnChangeUntouched(c1, n, StateOf(c.tracker, n), state, id);
  }

  lemma {:induction false} EvaluatedAlive(c: Cluster, n: NodeId)
    requires Safe(c) && n in c.tracker.last
    ensures AliveOk(Evaluate(c.tracker, n, c.now).0, c.agents, c.now)
  {
    EvaluateOnlyStates(c.tracker, n, c.now);
    forall i | 0 <= i < |c.agents| && c.agents[i].alive
      ensures StateOf(Evaluate(c.tracker, n, c.now).0, c.agents[i].id) != Dead
    {
      assert AliveAt(c.agents, c.agents[i].id);
      AliveNotDead(c.tracker, c.agents, c.now, c.agents[i].id);
    }
  }

  lemma {:induction false} EvaluatedUntouched(c: Cluster, n: NodeId, id: NodeId)
    requires Safe(c) && n in c.tracker.last && (n != id || AliveAt(c.agents, id))
    ensures var (t, state) := Evaluate(c.tracker, n, c.now);
            && Untouched(c, c.(tracker := t), id) && AliveOk(t, Killed(c.agents, n), c.now)
            && (n == id ==> state != Dead)
  {
    EvaluateOnlyStates(c.tracker, n, c.now);
    if AliveAt(c.agents, n) {
      AliveNotDead(c.tracker, c.agents, c.now, n);
    }
  }

  // ---- live agents are never declared dead ----

  lemma {:induction false} EvaluateNodesLive(c: Cluster, ids: seq<NodeId>, id: NodeId)
    requires Safe(c) && AliveAt(c.agents, id) && forall i :: 0 <= i < |ids| ==> ids[i] in c.tracker.last
    ensures Untouched(c, EvaluateNodes(c, ids), id) && EvaluateNodes(c, ids).events == c.events
    decreases |ids|
  {
    if |ids| > 0 {
      EvaluateNodeSafe(c, ids[0]);
      EvaluateOtherUntouched(c, ids[0], id);
      EvaluateNodesLive(EvaluateNode(c, ids[0]), ids[1..], id);
    }
  }

  ghost predicate StepSpares(s: Step, id: NodeId) {
    s.Tick? || Spares(s.action, id)
  }

  lemma {:induction false} ScheduleSpares(c: Cluster, at: real, a: Action, id: NodeId)
    requires EventsSpare(c.events, id) && Spares(a, id)
    ensures EventsSpare(Schedule(c, at, a).events, id)
  {
    var events := c.events + [Event(at, a)];
    SortPermutes(events, Earlier);
    SameElements(Sort(events, Earlier), events);
    forall i | 0 <= i < |Sort(events, Earlier)| ensures Spares(Sort(events, Earlier)[i].action, id) {
      assert Sort(events, Earlier)[i] in events;
    }
  }

  lemma {:induction false} StepKeepsLive(c: Cluster, s: Step, id: NodeId)
    requires Good(c) && NewStep(s) && AliveAt(c.agents, id) && EventsSpare(c.events, id) && StepSpares(s, id)
    ensures Untouched(c, StepOnce(c, s), id) && EventsSpare(StepOnce(c, s).events, id)
  {
    match s
    case Tick =>
      FireSafe(c);
      FireUntouched(c, id);
      BeatPhaseSafe(FireEvents(c));
      BeatFromUntouched(FireEvents(c), 0, id);
      var beaten := BeatFrom(FireEvents(c), 0);
      EvaluateNodesLive(beaten, beaten.tracker.known, id);
    case Do(a) => PerformUntouched(c, a, id);
    case At(at, a) => ScheduleSpares(c, at, a, id);
  }

  /** Accuracy: a live agent that nobody kills or crashes stays alive and is never declared dead. */
  lemma {:induction false} LiveAgentNeverDeclaredDead(c: Cluster, steps: seq<Step>, id: NodeId)
    requires Good(c) && AliveAt(c.agents, id) && EventsSpare(c.events, id)
    requires forall i :: 0 <= i < |steps| ==> NewStep(steps[i]) && StepSpares(steps[i], id)
    ensures var r := RunSteps(c, steps);
            && AliveAt(r.agents, id)
            && StateOf(r.tracker, id) != Dead
            && DeadNotices(r.changes, id) == DeadNotices(c.changes, id)
    decreases |steps|
  {
    if |steps| == 0 {
      AliveNotDead(c.tracker, c.agents, c.now, id);
    } else {
      StepGood(c, steps[0]);
      StepKeepsLive(c, steps[0], id);
      LiveAgentNeverDeclaredDead(StepOnce(c, steps[0]), steps[1..], id);
    }
  }

  // ---- crashed agents are declared dead, on time and once ----

  /** `id` last reported at `since`, is not alive any more, and nobody has told the tracker. */
  ghost predicate Silent(c: Cluster, id: NodeId, since: real) {
    && !AliveAt(c.agents, id)
    && id in c.tracker.last && c.tracker.last[id] == since
    && id !in c.tracker.explicitDead
  }

  /** When evaluated, a silent node is found dead exactly from the time to dead on, and the change is told once. */
  lemma {:induction false} EvaluateSilent(c: Cluster, id: NodeId, since: real)
    requires Safe(c) && Silent(c, id, since)
    ensures var r := EvaluateNode(c, id);
            && Silent(r, id, since) && SameTiming(r.tracker, c.tracker)
            && (StateOf(r.tracker, id) == Dead <==> c.now - since >= TimeToDead(c.tracker))
            && DeadNotices(r.changes, id) == DeadNotices(c.changes, id)
                 + (if StateOf(r.tracker, id) == Dead && StateOf(c.tracker, id) != Dead then 1 else 0)
  {
    var (t, state) := Evaluate(c.tracker, id, c.now);
    DeadByTimeout(c.tracker, id, c.now);
    EvaluatedAlive(c, id);
    OnChangeSilent(c.(tracker := t), id, StateOf(c.tracker, id), since);
  }

  lemma {:induction false} OnChangeSilent(c: Cluster, id: NodeId, was: NodeState, since: real)
    requires Silent(c, id, since) && AliveOk(c.tracker, c.agents, c.now)
    ensures var state := StateOf(c.tracker, id);
            var r := OnChange(c, id, was, state);
            && Silent(r, id, since) && SameTiming(r.tracker, c.tracker)
            && (StateOf(r.tracker, id) == Dead <==> state == Dead)
            && DeadNotices(r.changes, id) ==
                 DeadNotices(c.changes, id) + (if state == Dead && was != Dead then 1 else 0)
  {
    var state := StateOf(c.tracker, id);
    if was != state {
      var stamped := Stamped(c.now, Change(id, was, state));
      DeadNoticesSnoc(c.changes, stamped, id);
      if state == Dead {
        KilledAlive(c.agents, id, id);
        HandleDeathFrame(c.(changes := c.changes + [stamped]), id, id);
      }
    }
  }

  lemma {:induction false} EvaluateNodesSilent(c: Cluster, ids: seq<NodeId>, id: NodeId, since: real)
    requires Safe(c) && Silent(c, id, since) && forall i :: 0 <= i < |ids| ==> ids[i] in c.tracker.last
    requires StateOf(c.tracker, id) == Dead ==> c.now - since >= TimeToDead(c.tracker)
    ensures var r := EvaluateNodes(c, ids);
            && Silent(r, id, since) && SameTiming(r.tracker, c.tracker) && r.events == c.events
            && (StateOf(r.tracker, id) == Dead <==>
                  c.now - since >= TimeToDead(c.tracker) && (id in ids || StateOf(c.tracker, id) == Dead))
            && DeadNotices(r.changes, id) == DeadNotices(c.changes, id)
                 + (if StateOf(r.tracker, id) == Dead && StateOf(c.tracker, id) != Dead then 1 else 0)
    decreases |ids|
  {
    if |ids| > 0 {
      EvaluateNodeSafe(c, ids[0]);
      if ids[0] == id {
        EvaluateSilent(c, id, since);
      } else {
        EvaluateOtherUntouched(c, ids[0], id);
      }
      EvaluateNodesSilent(EvaluateNode(c, ids[0]), ids[1..], id, since);
    }
  }

  /**
   * The latest tick at or before `c` was at time `now - tick`; the node is dead exactly if that tick was late
   * enough.
   */
  ghost predicate DetectedOnTime(c: Cluster, id: NodeId, since: real) {
    && Silent(c, id, since)
    && (StateOf(c.tracker, id) == Dead <==> c.now - c.tick - since >= TimeToDead(c.tracker))
  }

  lemma {:induction false} StepDetects(c: Cluster, s: Step, id: NodeId, since: real)
    requires Good(c) && NewStep(s) && DetectedOnTime(c, id, since)
    requires EventsSpare(c.events, id) && StepSpares(s, id)
    ensures var r := StepOnce(c, s);
            && DetectedOnTime(r, id, since) && EventsSpare(r.events, id)
            && DeadNotices(r.changes, id) == DeadNotices(c.changes, id)
                 + (if StateOf(r.tracker, id) == Dead && StateOf(c.tracker, id) != Dead then 1 else 0)
            && (StateOf(c.tracker, id) == Dead ==> StateOf(r.tracker, id) == Dead)
  {
    match s
    case Tick =>
      FireSafe(c);
      FireUntouched(c, id);
      BeatPhaseSafe(FireEvents(c));
      BeatFromUntouched(FireEvents(c), 0, id);
      var beaten := BeatFrom(FireEvents(c), 0);
      EvaluateNodesSafe(beaten, beaten.tracker.known);
      EvaluateNodesSilent(beaten, beaten.tracker.known, id, since);
    case Do(a) => PerformUntouched(c, a, id);
    case At(at, a) => ScheduleSpares(c, at, a, id);
  }

  lemma {:induction false} RunDetects(c: Cluster, steps: seq<Step>, id: NodeId, since: real)
    requires Good(c) && DetectedOnTime(c, id, since) && EventsSpare(c.events, id)
    requires forall i :: 0 <= i < |steps| ==> NewStep(steps[i]) && StepSpares(steps[i], id)
    ensures var r := RunSteps(c, steps);
            && DetectedOnTime(r, id, since) && Good(r)
            && DeadNotices(r.changes, id) == DeadNotices(c.changes, id)
                 + (if StateOf(r.tracker, id) == Dead && StateOf(c.tracker, id) != Dead then 1 else 0)
            && (StateOf(c.tracker, id) == Dead ==> StateOf(r.tracker, id) == Dead)
    decreases |steps|
  {
    if |steps| > 0 {
      StepGood(c, steps[0]);
      StepDetects(c, steps[0], id, since);
      RunDetects(StepOnce(c, steps[0]), steps[1..], id, since);
    }
  }

  /** A state just after the crash of a live agent: it is silent and not yet overdue. */
  lemma {:induction false} CrashIsSilent(c: Cluster, id: NodeId)
    requires Good(c) && AliveAt(c.agents, id)
    ensures id in c.tracker.last
    ensures var r := Perform(c, Crash(id));
            && Good(r) && DetectedOnTime(r, id, c.tracker.last[id])
            && StateOf(r.tracker, id) != Dead && r.changes == c.changes && r.tracker == c.tracker
  {
    AliveNotDead(c.tracker, c.agents, c.now, id);
    var k :| 0 <= k < |c.agents| && c.agents[k].id == id && c.agents[k].alive;
    assert c.now - c.tracker.last[id] < TimeToDead(c.tracker);
    KilledAlive(c.agents, id, id);
    PerformSafe(c, Crash(id));
  }

  lemma {:induction false} NothingRunsOnDead(c: Cluster, id: NodeId, t: Task)
    requires Safe(c) && StateOf(c.tracker, id) == Dead && t in c.tasks && t.state == Running
    ensures t.node != Some(id)
  {
  }

  /**
   * Completeness: an agent that crashes after its heartbeat at `since` is declared dead exactly when a tick at
   * time t with t - since >= interval * dead_threshold has run; it is declared once, and then nothing runs on it.
   */
  lemma {:induction false} CrashIsDetected(c: Cluster, steps: seq<Step>, id: NodeId, since: real)
    requires Good(c) && AliveAt(c.agents, id) && EventsSpare(c.events, id)
    requires id in c.tracker.last && c.tracker.last[id] == since
    requires forall i :: 0 <= i < |steps| ==> NewStep(steps[i]) && StepSpares(steps[i], id)
    ensures var r := RunSteps(Perform(c, Crash(id)), steps);
            var found := r.now - r.tick - since >= TimeToDead(c.tracker);
            && (StateOf(r.tracker, id) == Dead <==> found)
            && DeadNotices(r.changes, id) == DeadNotices(c.changes, id) + (if found then 1 else 0)
            && (found ==> forall t :: t in r.tasks && t.state == Running ==> t.node != Some(id))
  {
    var crashed := Perform(c, Crash(id));
    CrashIsSilent(c, id);
    RunDetects(crashed, steps, id, since);
    RunKeepsTiming(crashed, steps);
    var r := RunSteps(crashed, steps);
    forall t | t in r.tasks && t.state == Running && StateOf(r.tracker, id) == Dead ensures t.node != Some(id) {
      NothingRunsOnDead(r, id, t);
    }
  }

  // ---- a crash that comes as a scheduled event ----

  lemma {:induction false} PerformKeepsLast(c: Cluster, a: Action)
    requires Safe(c)
    ensures Perform(c, a).tracker.last == c.tracker.last && Perform(c, a).tracker.known == c.tracker.known
  {
    match a
    case Kill(n) =>
      MarkedSafe(c, n);
      OnChangeHistory(Marked(c, n), n, StateOf(c.tracker, n), Dead);
    case Submit(t) => EvaluateAliveSafe(c.tracker, c.agents, c.now);
    case Crash(n) =>
    case Preempt(n, spike) =>
    case Drain(n, pct) =>
    case HourPasses(hour) =>
  }

  /** The event at `k` is due and crashes `id`; no other event kills or crashes it. */
  ghost predicate CrashDue(c: Cluster, k: nat, id: NodeId) {
    && k < |c.events| && c.events[k].action == Crash(id)
    && (forall j :: 0 <= j <= k ==> c.events[j].at <= c.now)
    && (forall j :: 0 <= j < |c.events| && j != k ==> Spares(c.events[j].action, id))
  }

  lemma {:induction false} CrashNow(c: Cluster, id: NodeId, since: real)
    requires Safe(c) && AliveAt(c.agents, id) && id in c.tracker.last && c.tracker.last[id] == since
    ensures var r := Perform(c, Crash(id));
            && Silent(r, id, since) && StateOf(r.tracker, id) != Dead
            && r.changes == c.changes && r.tracker == c.tracker
            && r.events == c.events
  {
    AliveNotDead(c.tracker, c.agents, c.now, id);
    KilledAlive(c.agents, id, id);
  }

  /** Firing the due events leaves the crashed agent silent and not yet found dead. */
  lemma {:induction false} FireCrash(c: Cluster, k: nat, id: NodeId, since: real)
    requires Safe(c) && NewEvents(c.events) && CrashDue(c, k, id)
    requires AliveAt(c.agents, id) && id in c.tracker.last && c.tracker.last[id] == since
    ensures var r := FireEvents(c);
            && Silent(r, id, since) && StateOf(r.tracker, id) != Dead && SameTiming(r.tracker, c.tracker)
            && DeadNotices(r.changes, id) == DeadNotices(c.changes, id) && EventsSpare(r.events, id)
    decreases k
  {
    var c1, a := c.(events := c.events[1..]), c.events[0].action;
    assert c.events[0].at <= c.now && Safe(c1);
    var r := Perform(c1, a);
    PerformSafe(c1, a);
    if k == 0 {
      CrashNow(c1, id, since);
      assert EventsSpare(r.events, id);
      FireUntouched(r, id);
    } else {
      PerformUntouched(c1, a, id);
      PerformKeepsLast(c1, a);
      assert r.events == c1.events && r.now == c.now;
      FireCrash(r, k - 1, id, since);
    }
  }

  /** The tick in which the crash fires already measures the silence. */
  lemma {:induction false} TickCrash(c: Cluster, k: nat, id: NodeId, since: real)
    requires Good(c) && CrashDue(c, k, id)
    requires AliveAt(c.agents, id) && id in c.tracker.last && c.tracker.last[id] == since
    ensures var r := TickOnce(c);
            && Good(r) && DetectedOnTime(r, id, since) && EventsSpare(r.events, id) && SameTiming(r.tracker, c.tracker)
            && DeadNotices(r.changes, id) ==
                 DeadNotices(c.changes, id) + (if StateOf(r.tracker, id) == Dead then 1 else 0)
  {
    var fired := FireEvents(c);
    var beaten := BeatFrom(fired, 0);
    TickSafe(c);
    FireSafe(c);
    FireCrash(c, k, id, since);
    BeatPhaseSafe(fired);
    BeatFromUntouched(fired, 0, id);
    EvaluateNodesSafe(beaten, beaten.tracker.known);
    EvaluateNodesSilent(beaten, beaten.tracker.known, id, since);
  }

  /** Completeness for a crash that fires as an event inside a tick, with the same bound and a single notice. */
  lemma {:induction false} CrashEventIsDetected(c: Cluster, k: nat, steps: seq<Step>, id: NodeId, since: real)
    requires Good(c) && CrashDue(c, k, id)
    requires AliveAt(c.agents, id) && id in c.tracker.last && c.tracker.last[id] == since
    requires forall i :: 0 <= i < |steps| ==> NewStep(steps[i]) && StepSpares(steps[i], id)
    ensures var r := RunSteps(TickOnce(c), steps);
            var found := r.now - r.tick - since >= TimeToDead(c.tracker);
            && (StateOf(r.tracker, id) == Dead <==> found)
            && DeadNotices(r.changes, id) == DeadNotices(c.changes, id) + (if found then 1 else 0)
            && (found ==> forall t :: t in r.tasks && t.state == Running ==> t.node != Some(id))
  {
    var crashed := TickOnce(c);
    TickCrash(c, k, id, since);
    RunDetects(crashed, steps, id, since);
    RunKeepsTiming(crashed, steps);
    var r := RunSteps(crashed, steps);
    forall t | t in r.tasks && t.state == Running && StateOf(r.tracker, id) == Dead ensures t.node != Some(id) {
      NothingRunsOnDead(r, id, t);
    }
  }

  lemma {:induction false} RunKeepsTiming(c: Cluster, steps: seq<Step>)
    requires Good(c) && forall i :: 0 <= i < |steps| ==> NewStep(steps[i])
    ensures SameTiming(RunSteps(c, steps).tracker, c.tracker)
    decreases |steps|
  {
    if |steps| > 0 {
      StepGood(c, steps[0]);
      StepKeepsTiming(c, steps[0]);
      RunKeepsTiming(StepOnce(c, steps[0]), steps[1..]);
    }
  }

  lemma {:induction false} StepKeepsTiming(c: Cluster, s: Step)
    requires Good(c) && NewStep(s)
    ensures SameTiming(StepOnce(c, s).tracker, c.tracker)
  {
    match s
    case Tick => HealthPhaseSafe(c);
    case Do(a) => PerformSafe(c, a);
    case At(at, a) =>
  }
}
