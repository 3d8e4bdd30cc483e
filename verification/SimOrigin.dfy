/**
 * Runs from the construction of the simulated cluster: what is known about a task by how often its id was
 * submitted.
 */
module SimOrigin {
  import opened Sorting
  import opened Models
  import opened Placement
  import opened Stealing
  import opened Health
  import opened SimModel
  import opened SimSafety
  import opened SimProgress

  // ---- construction ----

  lemma {:induction false} RegisterFacts(t: Tracker, agents: seq<Agent>, now: real, id: NodeId)
    requires Known(t) && t.explicitDead == {}
    ensures var r := RegisterAll(t, agents, now);
            && Known(r) && r.explicitDead == {} && r.interval == t.interval && r.deadAfter == t.deadAfter
            && (AgentAt(agents, id) ==> id in r.last && r.last[id] == now && StateOf(r, id) == Healthy)
            && (!AgentAt(agents, id) ==>
                  (id in r.last <==> id in t.last) && (id in t.last ==> r.last[id] == t.last[id])
                  && StateOf(r, id) == StateOf(t, id))
    decreases |agents|
  {
    if |agents| > 0 {
      RegisterFacts(Beat(t, agents[0].id, now), agents[1..], now, id);
      assert AgentAt(agents, id) <==> agents[0].id == id || AgentAt(agents[1..], id) by {
        if AgentAt(agents[1..], id) {
          var k :| 0 <= k < |agents[1..]| && agents[1..][k].id == id;
          assert agents[k + 1].id == id;
        }
      }
    }
  }

  /** A cluster made from live agents, with a tick shorter than the time to dead, is one as constructed. */
  lemma {:induction false} MadeIsConstructed(c: Cluster, blank: Tracker)
    requires blank.known == [] && blank.last == map[] && blank.explicitDead == {}
    requires c.tracker == RegisterAll(blank, c.agents, c.now) && c.tasks == [] && c.events == []
    requires forall k :: 0 <= k < |c.agents| ==> c.agents[k].alive
    requires 0.0 <= c.tick < blank.interval * blank.deadAfter as real
    ensures Constructed(c)
  {
    RegisterFacts(blank, c.agents, c.now, "");
    forall k | 0 <= k < |c.agents|
      ensures c.agents[k].id in c.tracker.last && c.tracker.last[c.agents[k].id] == c.now
      ensures StateOf(c.tracker, c.agents[k].id) == Healthy
    {
      RegisterFacts(blank, c.agents, c.now, c.agents[k].id);
    }
  }

  // ---- the keys of the task table ----

  ghost predicate HasId(tasks: seq<Task>, id: TaskId) {
    exists j :: 0 <= j < |tasks| && tasks[j].id == id
  }

  ghost predicate SameIds(a: seq<Task>, b: seq<Task>) {
    |a| == |b| && forall j :: 0 <= j < |a| ==> a[j].id == b[j].id
  }

  /** The same keys, checkpoints and events. */
  ghost predicate SameTable(c: Cluster, r: Cluster) {
    SameIds(c.tasks, r.tasks) && r.checkpoints == c.checkpoints && r.shared == c.shared && r.events == c.events
  }

  lemma {:induction false} HandleDeathTable(c: Cluster, d: NodeId)
    ensures SameTable(c, HandleDeath(c, d))
  {
    if HasOrphan(c.tasks, {d}) {
      var healthy := HealthyNodes(LiveNodes(c.tracker, Killed(c.agents, d), c.now));
      var r := HandleDeath(c, d);
      forall j | 0 <= j < |c.tasks| ensures r.tasks[j].id == c.tasks[j].id {
        var u := StealTableAt(c.engine, StealerTable(c), healthy, {d}, {}, c.tasks, j);
        StealOneFacts(c.engine, StealerTable(c), healthy, u, c.tasks[j]);
      }
    }
  }

  lemma {:induction false} OnChangeTable(c: Cluster, id: NodeId, was: NodeState, state: NodeState)
    ensures SameTable(c, OnChange(c, id, was, state))
  {
    if was != state && state == Dead {
      HandleDeathTable(c.(changes := c.changes + [Stamped(c.now, Change(id, was, state))]), id);
    }
  }

  lemma {:induction false} PerformTable(c: Cluster, a: Action)
    requires !a.Submit?
    ensures SameTable(c, Perform(c, a))
  {
    match a
    case Kill(id) => OnChangeTable(Marked(c, id), id, StateOf(c.tracker, id), Dead);
    case Crash(id) =>
    case Preempt(id, spike) =>
    case Drain(id, pct) =>
    case HourPasses(hour) =>
  }

  lemma {:induction false} SubmitTable(c: Cluster, t: Task) returns (placed: Task)
    ensures placed.id == t.id
    ensures var r := SubmitTask(c, t);
            && r.tasks == Put(c.tasks, placed)
            && r.checkpoints == c.checkpoints && r.shared == c.shared && r.events == c.events
  {
    placed := match Place(c.engine, t, LiveNodes(c.tracker, c.agents, c.now))
              case Some(p) => t.(node := Some(p.node), state := Running)
              case None => t.(state := Pending);
  }

  lemma {:induction false} EvaluateNodesTable(c: Cluster, ids: seq<NodeId>)
    ensures SameTable(c, EvaluateNodes(c, ids))
    decreases |ids|
  {
    if |ids| > 0 {
      var (t, state) := Evaluate(c.tracker, ids[0], c.now);
      OnChangeTable(c.(tracker := t), ids[0], StateOf(c.tracker, ids[0]), state);
      EvaluateNodesTable(EvaluateNode(c, ids[0]), ids[1..]);
    }
  }

  lemma {:induction false} PutIds(tasks: seq<Task>, t: Task)
    ensures forall id :: HasId(Put(tasks, t), id) <==> id == t.id || HasId(tasks, id)
    ensures UniqueIds(tasks) ==> UniqueIds(Put(tasks, t))
  {
    forall id ensures HasId(Put(tasks, t), id) <==> id == t.id || HasId(tasks, id) {
      if |tasks| == 0 {
        assert Put(tasks, t)[0].id == t.id;
      } else {
        PutIds(tasks[1..], t);
        HasIdCons(tasks, id);
        HasIdCons(Put(tasks, t), id);
        assert Put(tasks, t)[1..] == if tasks[0].id == t.id then tasks[1..] else Put(tasks[1..], t);
      }
    }
    if |tasks| > 0 && UniqueIds(tasks) {
      PutIds(tasks[1..], t);
      if tasks[0].id != t.id {
        var rest := Put(tasks[1..], t);
        forall j | 0 <= j < |rest| ensures rest[j].id != tasks[0].id {
          assert HasId(rest, rest[j].id);
          if HasId(tasks[1..], rest[j].id) {
            var k :| 0 <= k < |tasks[1..]| && tasks[1..][k].id == rest[j].id;
            assert tasks[k + 1].id == rest[j].id;
          }
        }
      }
    }
  }

  lemma {:induction false} HasIdCons(tasks: seq<Task>, id: TaskId)
    requires |tasks| > 0
    ensures HasId(tasks, id) <==> tasks[0].id == id || HasId(tasks[1..], id)
  {
    if HasId(tasks[1..], id) {
      var j :| 0 <= j < |tasks[1..]| && tasks[1..][j].id == id;
      assert tasks[j + 1].id == id;
    }
    if HasId(tasks, id) && tasks[0].id != id {
      var j :| 0 <= j < |tasks| && tasks[j].id == id;
      assert tasks[1..][j - 1].id == id;
    }
  }

  // ---- how often an id is submitted ----

  function Submits(a: Action, id: TaskId): nat { if a.Submit? && a.task.id == id then 1 else 0 }

  function ScheduledSubmits(events: seq<Event>, id: TaskId): nat {
    if |events| == 0 then 0 else Submits(events[0].action, id) + ScheduledSubmits(events[1..], id)
  }

  /** Submissions of `id` that the steps make or schedule. */
  function Submissions(steps: seq<Step>, id: TaskId): nat {
    if |steps| == 0 then 0
    else (if steps[0].Tick? then 0 else Submits(steps[0].action, id)) + Submissions(steps[1..], id)
  }

  lemma {:induction false} NoneScheduled(events: seq<Event>, id: TaskId)
    ensures ScheduledSubmits(events, id) == 0 <==> EventsKeep(events, id)
  {
    if |events| > 0 {
      NoneScheduled(events[1..], id);
      assert EventsKeep(events, id) <==> Keeps(events[0].action, id) && EventsKeep(events[1..], id) by {
        if Keeps(events[0].action, id) && EventsKeep(events[1..], id) {
          assert forall k :: 0 < k < |events| ==> events[k] == events[1..][k - 1];
        }
      }
    }
  }

  lemma {:induction false} InsertSubmits(e: Event, events: seq<Event>, id: TaskId)
    ensures ScheduledSubmits(Insert(e, events, Earlier), id) == Submits(e.action, id) + ScheduledSubmits(events, id)
  {
    if |events| == 0 || Earlier(e, events[0]) {
      assert ([e] + events)[1..] == events;
    } else {
      InsertSubmits(e, events[1..], id);
      var rest := Insert(e, events[1..], Earlier);
      assert ([events[0]] + rest)[1..] == rest;
    }
  }

  lemma {:induction false} SortSubmits(events: seq<Event>, id: TaskId)
    ensures ScheduledSubmits(Sort(events, Earlier), id) == ScheduledSubmits(events, id)
  {
    if |events| > 0 {
      SortSubmits(events[1..], id);
      InsertSubmits(events[0], Sort(events[1..], Earlier), id);
    }
  }

  lemma {:induction false} SubmitsSnoc(events: seq<Event>, e: Event, id: TaskId)
    ensures ScheduledSubmits(events + [e], id) == ScheduledSubmits(events, id) + Submits(e.action, id)
  {
    if |events| == 0 {
      assert [e][1..] == [];
    } else {
      SubmitsSnoc(events[1..], e, id);
      assert (events + [e])[1..] == events[1..] + [e];
    }
  }

  // ---- the invariant: absent until submitted, tracked from then on ----

  ghost predicate Absent(c: Cluster, id: TaskId) {
    !HasId(c.tasks, id) && (c.shared ==> id !in c.checkpoints)
  }

  ghost predicate Present(c: Cluster, id: TaskId) {
    exists i :: 0 <= i < |c.tasks| && c.tasks[i].id == id && Tracked(c, i)
  }

  /** `id` has not been submitted yet and will be at most once more, or it has been and will not be again. */
  ghost predicate Once(c: Cluster, id: TaskId, ahead: nat) {
    || (Absent(c, id) && ScheduledSubmits(c.events, id) + ahead <= 1)
    || (Present(c, id) && ScheduledSubmits(c.events, id) + ahead == 0)
  }

  /** Submitting a task under an absent id puts it at the end of the table, where it is tracked. */
  lemma {:induction false} SubmitTracks(c: Cluster, t: Task)
    requires Absent(c, t.id)
    ensures var r := Perform(c, Submit(t));
            && |r.tasks| == |c.tasks| + 1 && r.tasks[|c.tasks|].id == t.id && Tracked(r, |c.tasks|)
            && r.events == c.events
  {
    var placed := SubmitTable(c, t);
    PutAbsent(c.tasks, placed);
    var r := Perform(c, Submit(t));
    forall j | 0 <= j < |c.tasks| ensures r.tasks[j].id != t.id {
      assert r.tasks[j] == c.tasks[j];
    }
  }

  lemma {:induction false} PutAbsent(tasks: seq<Task>, t: Task)
    requires !HasId(tasks, t.id)
    ensures Put(tasks, t) == tasks + [t]
  {
    if |tasks| > 0 {
      HasIdCons(tasks, t.id);
      PutAbsent(tasks[1..], t);
      assert [tasks[0]] + (tasks[1..] + [t]) == tasks + [t];
    }
  }

  /** An action that does not submit `id` leaves it absent. */
  lemma {:induction false} PerformAbsent(c: Cluster, a: Action, id: TaskId)
    requires Absent(c, id) && Keeps(a, id)
    ensures Absent(Perform(c, a), id) && Perform(c, a).events == c.events
  {
    if a.Submit? {
      var placed := SubmitTable(c, a.task);
      PutIds(c.tasks, placed);
    } else {
      PerformTable(c, a);
    }
  }

  lemma {:induction false} PerformOnce(c: Cluster, a: Action, id: TaskId, ahead: nat)
    requires Safe(c) && Once(c, id, Submits(a, id) + ahead)
    ensures Once(Perform(c, a), id, ahead)
  {
    if Absent(c, id) && ScheduledSubmits(c.events, id) + Submits(a, id) + ahead <= 1 {
      if Submits(a, id) == 1 {
        SubmitTracks(c, a.task);
      } else {
        PerformAbsent(c, a, id);
      }
    } else {
      var i :| 0 <= i < |c.tasks| && c.tasks[i].id == id && Tracked(c, i);
      assert TaskOk(c.tracker, c.agents, c.tasks[i]);
      PerformFollows(c, a, i);
      assert Perform(c, a).tasks[i].id == id;
    }
  }

  lemma {:induction false} FireOnce(c: Cluster, id: TaskId, ahead: nat)
    requires Safe(c) && NewEvents(c.events) && Once(c, id, ahead)
    ensures Once(FireEvents(c), id, ahead)
    decreases |c.events|
  {
    if |c.events| == 0 || c.events[0].at > c.now {
    } else {
      var c1, a := c.(events := c.events[1..]), c.events[0].action;
      assert Safe(c1);
      if Present(c, id) {
        var i :| 0 <= i < |c.tasks| && c.tasks[i].id == id && Tracked(c, i);
        assert Tracked(c1, i);
      }
      PerformSafe(c1, a);
      PerformOnce(c1, a, id, ahead);
      FireOnce(Perform(c1, a), id, ahead);
    }
  }

  lemma {:induction false} BeatOnce(c: Cluster, id: TaskId, ahead: nat)
    requires Once(c, id, ahead)
    ensures Once(BeatFrom(c, 0), id, ahead)
  {
    BeatFromTasks(c, 0);
    if Present(c, id) {
      var i :| 0 <= i < |c.tasks| && c.tasks[i].id == id && Tracked(c, i);
      assert Tracked(BeatFrom(c, 0), i);
    }
  }

  lemma {:induction false} EvaluateOnce(c: Cluster, ids: seq<NodeId>, id: TaskId, ahead: nat)
    requires Safe(c) && Once(c, id, ahead)
    ensures Once(EvaluateNodes(c, ids), id, ahead)
  {
    EvaluateNodesTable(c, ids);
    if Present(c, id) {
      var i :| 0 <= i < |c.tasks| && c.tasks[i].id == id && Tracked(c, i);
      assert TaskOk(c.tracker, c.agents, c.tasks[i]);
      EvaluateNodesFollows(c, ids, i);
      assert EvaluateNodes(c, ids).tasks[i].id == id;
    }
  }

  lemma {:induction false} WorkOnce(c: Cluster, id: TaskId, ahead: nat)
    requires Once(c, id, ahead)
    ensures Once(WorkPhase(c), id, ahead)
  {
    if Present(c, id) {
      WorkPresent(c, id);
    }
    if Absent(c, id) {
      WorkAbsent(c, id);
    }
  }

  lemma {:induction false} WorkPresent(c: Cluster, id: TaskId)
    requires Present(c, id)
    ensures Present(WorkPhase(c), id) && WorkPhase(c).events == c.events
  {
    var i :| 0 <= i < |c.tasks| && c.tasks[i].id == id && Tracked(c, i);
    WorkPhaseAt(c, i);
    assert WorkPhase(c).tasks[i].id == id;
  }

  lemma {:induction false} WorkAbsent(c: Cluster, id: TaskId)
    requires Absent(c, id)
    ensures Absent(WorkPhase(c), id) && WorkPhase(c).events == c.events
  {
    SaveRunningOther(c.checkpoints, AdvanceAll(c.tasks, c.tick), c.now, id);
    assert SameIds(c.tasks, WorkPhase(c).tasks);
  }

  lemma {:induction false} TickOnceKeeps(c: Cluster, id: TaskId, ahead: nat)
    requires Good(c) && Once(c, id, ahead)
    ensures Once(TickOnce(c), id, ahead)
  {
    var fired := FireEvents(c);
    FireOnce(c, id, ahead);
    FireSafe(c);
    var beaten := BeatFrom(fired, 0);
    BeatOnce(fired, id, ahead);
    BeatPhaseSafe(fired);
    EvaluateOnce(beaten, beaten.tracker.known, id, ahead);
    WorkOnce(HealthPhase(c), id, ahead);
    ClockOnce(WorkPhase(HealthPhase(c)), id, ahead);
  }

  lemma {:induction false} ClockOnce(c: Cluster, id: TaskId, ahead: nat)
    requires Once(c, id, ahead)
    ensures Once(c.(now := c.now + c.tick), id, ahead)
  {
    if Present(c, id) {
      var i :| 0 <= i < |c.tasks| && c.tasks[i].id == id && Tracked(c, i);
      assert Tracked(c.(now := c.now + c.tick), i);
    }
  }

  lemma {:induction false} ScheduleOnce(c: Cluster, at: real, a: Action, id: TaskId, ahead: nat)
    requires Once(c, id, Submits(a, id) + ahead)
    ensures Once(Schedule(c, at, a), id, ahead)
  {
    var events := c.events + [Event(at, a)];
    SubmitsSnoc(c.events, Event(at, a), id);
    SortSubmits(events, id);
    if Present(c, id) {
      var i :| 0 <= i < |c.tasks| && c.tasks[i].id == id && Tracked(c, i);
      assert Tracked(Schedule(c, at, a), i);
    }
  }

  lemma {:induction false} RunOnce(c: Cluster, steps: seq<Step>, id: TaskId)
    requires Good(c) && Once(c, id, Submissions(steps, id))
    requires forall k :: 0 <= k < |steps| ==> NewStep(steps[k])
    ensures Once(RunSteps(c, steps), id, 0)
    decreases |steps|
  {
    if |steps| > 0 {
      var ahead := Submissions(steps[1..], id);
      match steps[0] {
        case Tick => TickOnceKeeps(c, id, ahead);
        case Do(a) => PerformOnce(c, a, id, ahead);
        case At(at, a) => ScheduleOnce(c, at, a, id, ahead);
      }
      StepGood(c, steps[0]);
      RunOnce(StepOnce(c, steps[0]), steps[1..], id);
    }
  }

  /**
   * In every run from construction that submits an id at most once, a task of that id is tracked, and it is the
   * only one.
   */
  lemma {:induction false} SubmittedIsTracked(c: Cluster, steps: seq<Step>, id: TaskId, i: nat)
    requires Constructed(c) && (c.shared ==> id !in c.checkpoints)
    requires (forall k :: 0 <= k < |steps| ==> NewStep(steps[k])) && Submissions(steps, id) <= 1
    requires i < |RunSteps(c, steps).tasks| && RunSteps(c, steps).tasks[i].id == id
    ensures Good(RunSteps(c, steps)) && Tracked(RunSteps(c, steps), i) && EventsKeep(RunSteps(c, steps).events, id)
  {
    ConstructedIsGood(c);
    RunGood(c, steps);
    RunOnce(c, steps, id);
    var r := RunSteps(c, steps);
    NoneScheduled(r.events, id);
    assert HasId(r.tasks, id);
    var j :| 0 <= j < |r.tasks| && r.tasks[j].id == id && Tracked(r, j);
    assert j == i;
  }

  lemma {:induction false} ConstructedIsGood(c: Cluster)
    requires Constructed(c)
    ensures Good(c)
  {
    SpanIsProduct(c.tracker.interval, c.tracker.deadAfter);
  }

  // ---- progress and completion in runs from construction ----

  /**
   * From construction: a task whose id was submitted once and that runs after `before` has, after `after` with n
   * more ticks, lost its node, or progress min(total, done + n * tick) while n is below the ticks it needs, or is
   * completed from exactly that number on.
   */
  lemma {:induction false} CompletesOnTime(c: Cluster, before: seq<Step>, after: seq<Step>, i: nat, total: real,
                                           done: real, n: nat)
    requires Constructed(c) && c.tick > 0.0
    requires forall k :: 0 <= k < |before| ==> NewStep(before[k])
    requires i < |RunSteps(c, before).tasks|
    requires var t := RunSteps(c, before).tasks[i];
             && (c.shared ==> t.id !in c.checkpoints) && Submissions(before, t.id) <= 1
             && (forall k :: 0 <= k < |after| ==> NewStep(after[k]) && StepKeeps(after[k], t.id))
             && t.state == Running && t.totalWork == total && t.progress == done
    requires n == Ticks(after)
    ensures i < |RunSteps(RunSteps(c, before), after).tasks|
    ensures var t := RunSteps(RunSteps(c, before), after).tasks[i];
            && (t.state == Running || t.state == Completed || t.state == Pending)
            && (t.state == Running ==>
                 n < TicksNeeded(total, done, c.tick) && t.progress == ProgressAfter(total, done, c.tick, n))
            && (t.state == Completed ==> n >= TicksNeeded(total, done, c.tick) && t.progress == total)
  {
    var mid := RunSteps(c, before);
    SubmittedIsTracked(c, before, mid.tasks[i].id, i);
    RunKeepsTick(c, before);
    CompletionBound(mid, after, i, total, done, n);
  }

  lemma {:induction false} RunKeepsTick(c: Cluster, steps: seq<Step>)
    ensures RunSteps(c, steps).tick == c.tick
    decreases |steps|
  {
    if |steps| > 0 {
      StepKeepsTick(c, steps[0]);
      RunKeepsTick(StepOnce(c, steps[0]), steps[1..]);
    }
  }

  lemma {:induction false} StepKeepsTick(c: Cluster, s: Step)
    ensures StepOnce(c, s).tick == c.tick
    ensures s.Tick? ==> StepOnce(c, s).now == c.now + c.tick
  {
    if s.Tick? {
      FireKeepsClock(c);
      BeatFromTasks(FireEvents(c), 0);
      EvaluateKeepsClock(BeatFrom(FireEvents(c), 0), BeatFrom(FireEvents(c), 0).tracker.known);
    }
  }

  lemma {:induction false} FireKeepsClock(c: Cluster)
    ensures FireEvents(c).tick == c.tick && FireEvents(c).now == c.now
    decreases |c.events|
  {
    if |c.events| > 0 && c.events[0].at <= c.now {
      FireKeepsClock(Perform(c.(events := c.events[1..]), c.events[0].action));
    }
  }

  lemma {:induction false} EvaluateKeepsClock(c: Cluster, ids: seq<NodeId>)
    ensures EvaluateNodes(c, ids).tick == c.tick && EvaluateNodes(c, ids).now == c.now
    decreases |ids|
  {
    if |ids| > 0 {
      EvaluateKeepsClock(EvaluateNode(c, ids[0]), ids[1..]);
    }
  }

  /**
   * `run(until)` with a tick interval that is not positive never reaches a time ahead of it, after any number of
   * rounds.
   */
  lemma {:induction false} RunNeverEnds(c: Cluster, until: real, n: nat)
    requires c.tick <= 0.0 && c.now < until
    ensures RunSteps(c, TickSteps(n)).now < until && RunSteps(c, TickSteps(n)).tick == c.tick
  {
    if n > 0 {
      RunNeverEnds(c, until, n - 1);
      RunSnoc(c, TickSteps(n - 1), Tick);
      StepKeepsTick(RunSteps(c, TickSteps(n - 1)), Tick);
    }
  }

  // ---- the table has one entry per id, so a completed task stays completed ----

  lemma {:induction false} PerformUnique(c: Cluster, a: Action)
    requires UniqueIds(c.tasks)
    ensures UniqueIds(Perform(c, a).tasks)
  {
    if a.Submit? {
      var placed := SubmitTable(c, a.task);
      PutIds(c.tasks, placed);
    } else {
      PerformTable(c, a);
    }
  }

  lemma {:induction false} FireUnique(c: Cluster)
    requires UniqueIds(c.tasks)
    ensures UniqueIds(FireEvents(c).tasks)
    decreases |c.events|
  {
    if |c.events| > 0 && c.events[0].at <= c.now {
      PerformUnique(c.(events := c.events[1..]), c.events[0].action);
      FireUnique(Perform(c.(events := c.events[1..]), c.events[0].action));
    }
  }

  lemma {:induction false} StepUnique(c: Cluster, s: Step)
    requires UniqueIds(c.tasks)
    ensures UniqueIds(StepOnce(c, s).tasks)
  {
    match s
    case Tick =>
      FireUnique(c);
      var beaten := BeatFrom(FireEvents(c), 0);
      BeatFromTasks(FireEvents(c), 0);
      EvaluateNodesTable(beaten, beaten.tracker.known);
      assert SameIds(HealthPhase(c).tasks, TickOnce(c).tasks);
    case Do(a) => PerformUnique(c, a);
    case At(at, a) =>
  }

  lemma {:induction false} RunUnique(c: Cluster, steps: seq<Step>)
    requires UniqueIds(c.tasks)
    ensures UniqueIds(RunSteps(c, steps).tasks)
    decreases |steps|
  {
    if |steps| > 0 {
      StepUnique(c, steps[0]);
      RunUnique(StepOnce(c, steps[0]), steps[1..]);
    }
  }

  /** From construction: a completed task is never changed again unless its id is submitted again. */
  lemma {:induction false} CompletedStays(c: Cluster, before: seq<Step>, after: seq<Step>, i: nat)
    requires Constructed(c) && forall k :: 0 <= k < |before| ==> NewStep(before[k])
    requires i < |RunSteps(c, before).tasks| && RunSteps(c, before).tasks[i].state == Completed
    requires EventsKeep(RunSteps(c, before).events, RunSteps(c, before).tasks[i].id)
    requires forall k :: 0 <= k < |after| ==> NewStep(after[k]) && StepKeeps(after[k], RunSteps(c, before).tasks[i].id)
    ensures i < |RunSteps(RunSteps(c, before), after).tasks|
    ensures RunSteps(RunSteps(c, before), after).tasks[i] == RunSteps(c, before).tasks[i]
  {
    ConstructedIsGood(c);
    RunGood(c, before);
    RunUnique(c, before);
    CompletedIsAbsorbing(RunSteps(c, before), after, i);
  }
}
