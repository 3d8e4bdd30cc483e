/** How a task progresses in the simulated cluster, however often it is stolen, and when it completes. */
module SimProgress {
  import opened Sorting
  import opened Models
  import opened Placement
  import opened Checkpointing
  import opened Stealing
  import opened Health
  import opened SimModel
  import opened SimSafety

  /** The task at index `i` is the only one with its id. */
  ghost predicate OnlyAt(tasks: seq<Task>, i: nat) {
    i < |tasks| && forall j :: 0 <= j < |tasks| && j != i ==> tasks[j].id != tasks[i].id
  }

  /** The task's checkpoint, if it has one, holds its present progress. */
  ghost predicate Agrees(cps: Checkpoints, t: Task) {
    t.id in cps ==> t.checkpoint && cps[t.id].progress == t.progress
  }

  /** A stealer that reads the cluster's checkpoints finds the right one for the task at `i`, should it be stolen. */
  ghost predicate Tracked(c: Cluster, i: nat) {
    OnlyAt(c.tasks, i) && (c.shared && c.tasks[i].state == Running ==> Agrees(c.checkpoints, c.tasks[i]))
  }

  /** Between ticks a task may change node or lose it, but not progress; a task that is not running stays as it is. */
  ghost predicate Moved(t: Task, r: Task) {
    && r.id == t.id && r.totalWork == t.totalWork && r.checkpoint == t.checkpoint && r.progress == t.progress
    && (if t.state == Running then r.state == Running || r.state == Pending else r == t)
  }

  ghost predicate Follows(c: Cluster, r: Cluster, i: nat) {
    && Tracked(r, i) && i < |c.tasks| && Moved(c.tasks[i], r.tasks[i])
    && r.shared == c.shared && r.tick == c.tick && r.now == c.now
  }

  lemma {:induction false} HandleDeathFollows(c: Cluster, d: NodeId, i: nat)
    requires Tracked(c, i) && c.tasks[i].state != Paused && c.tasks[i].state != Checkpointing
    ensures Follows(c, HandleDeath(c, d), i)
  {
    if HasOrphan(c.tasks, {d}) {
      var healthy := HealthyNodes(LiveNodes(c.tracker, Killed(c.agents, d), c.now));
      var r := HandleDeath(c, d);
      forall j | 0 <= j < |c.tasks|
        ensures r.tasks[j].id == c.tasks[j].id
        ensures j == i ==> Moved(c.tasks[i], r.tasks[i])
      {
        var u := StealTableAt(c.engine, StealerTable(c), healthy, {d}, {}, c.tasks, j);
        StealOneFacts(c.engine, StealerTable(c), healthy, u, c.tasks[j]);
      }
    }
  }

  /** The states a task can be in while the cluster is safe. */
  ghost predicate Plain(t: Task) {
    t.state == Pending || t.state == Running || t.state == Completed
  }

  lemma {:induction false} OnChangeFollows(c: Cluster, id: NodeId, was: NodeState, state: NodeState, i: nat)
    requires Tracked(c, i) && Plain(c.tasks[i])
    ensures Follows(c, OnChange(c, id, was, state), i)
  {
    if was != state && state == Dead {
      HandleDeathFollows(c.(changes := c.changes + [Stamped(c.now, Change(id, was, state))]), id, i);
    }
  }

  /** Does not submit a task under the id `id` again. */
  ghost predicate Keeps(a: Action, id: TaskId) {
    a.Submit? ==> a.task.id != id
  }

  lemma {:induction false} PutKeeps(tasks: seq<Task>, t: Task, i: nat)
    requires OnlyAt(tasks, i) && t.id != tasks[i].id
    ensures OnlyAt(Put(tasks, t), i) && Put(tasks, t)[i] == tasks[i]
  {
    PutAt(tasks, t);
  }

  lemma {:induction false} PutAt(tasks: seq<Task>, t: Task)
    ensures |Put(tasks, t)| >= |tasks|
    ensures forall j :: 0 <= j < |tasks| ==>
        Put(tasks, t)[j] == tasks[j] || (tasks[j].id == t.id && Put(tasks, t)[j] == t)
    ensures forall j :: |tasks| <= j < |Put(tasks, t)| ==> Put(tasks, t)[j] == t
  {
    if |tasks| > 0 && tasks[0].id != t.id {
      PutAt(tasks[1..], t);
    }
  }

  lemma {:induction false} PerformFollows(c: Cluster, a: Action, i: nat)
    requires Tracked(c, i) && Plain(c.tasks[i]) && Keeps(a, c.tasks[i].id)
    ensures Follows(c, Perform(c, a), i)
  {
    match a
    case Kill(id) => OnChangeFollows(Marked(c, id), id, StateOf(c.tracker, id), Dead, i);
    case Crash(id) =>
    case Preempt(id, spike) =>
    case Drain(id, pct) =>
    case Submit(t) =>
      var placed := match Place(c.engine, t, LiveNodes(c.tracker, c.agents, c.now))
                    case Some(p) => t.(node := Some(p.node), state := Running)
                    case None => t.(state := Pending);
      PutKeeps(c.tasks, placed, i);
    case HourPasses(hour) =>
  }

  ghost predicate EventsKeep(events: seq<Event>, id: TaskId) {
    forall k :: 0 <= k < |events| ==> Keeps(events[k].action, id)
  }

  lemma {:induction false} FireFollows(c: Cluster, i: nat)
    requires Safe(c) && NewEvents(c.events) && Tracked(c, i) && EventsKeep(c.events, c.tasks[i].id)
    ensures Follows(c, FireEvents(c), i) && EventsKeep(FireEvents(c).events, c.tasks[i].id)
    decreases |c.events|
  {
    assert TaskOk(c.tracker, c.agents, c.tasks[i]);
    if |c.events| == 0 || c.events[0].at > c.now {
    } else {
      var c1 := c.(events := c.events[1..]);
      assert Safe(c1);
      PerformSafe(c1, c.events[0].action);
      PerformFollows(c1, c.events[0].action, i);
      FireFollows(Perform(c1, c.events[0].action), i);
    }
  }

  lemma {:induction false} BeatFromTasks(c: Cluster, k: nat)
    ensures var r := BeatFrom(c, k);
            SameFrame(c, r) && r.tasks == c.tasks && r.checkpoints == c.checkpoints
    decreases |c.agents| - k
  {
    if k < |c.agents| {
      BeatFromTasks(BeatAgent(c, k), k + 1);
    }
  }

  lemma {:induction false} EvaluateNodesFollows(c: Cluster, ids: seq<NodeId>, i: nat)
    requires Tracked(c, i) && Plain(c.tasks[i])
    ensures Follows(c, EvaluateNodes(c, ids), i) && EvaluateNodes(c, ids).events == c.events
    decreases |ids|
  {
    if |ids| > 0 {
      var (t, state) := Evaluate(c.tracker, ids[0], c.now);
      OnChangeFollows(c.(tracker := t), ids[0], StateOf(c.tracker, ids[0]), state, i);
      EvaluateNodesFollows(EvaluateNode(c, ids[0]), ids[1..], i);
    }
  }

  lemma {:induction false} HealthPhaseFollows(c: Cluster, i: nat)
    requires Good(c) && Tracked(c, i) && EventsKeep(c.events, c.tasks[i].id)
    ensures Follows(c, HealthPhase(c), i) && EventsKeep(HealthPhase(c).events, c.tasks[i].id)
  {
    assert TaskOk(c.tracker, c.agents, c.tasks[i]);
    FireFollows(c, i);
    var fired := FireEvents(c);
    BeatFromTasks(fired, 0);
    EvaluateNodesFollows(BeatFrom(fired, 0), BeatFrom(fired, 0).tracker.known, i);
  }

  lemma {:induction false} SaveRunningOther(cps: Checkpoints, tasks: seq<Task>, now: real, id: TaskId)
    requires forall j :: 0 <= j < |tasks| ==> tasks[j].id != id
    ensures id in SaveRunning(cps, tasks, now) <==> id in cps
    ensures id in cps ==> SaveRunning(cps, tasks, now)[id] == cps[id]
    decreases |tasks|
  {
    if |tasks| > 0 {
      SaveRunningOther(if tasks[0].state == Running && tasks[0].checkpoint then Saved(cps, tasks[0], map[], now)
          else cps,
                       tasks[1..], now, id);
    }
  }

  /** After the saves the task's checkpoint is its new progress if it runs with checkpoints, and as before otherwise. */
  lemma {:induction false} SaveRunningAt(cps: Checkpoints, tasks: seq<Task>, now: real, i: nat)
    requires OnlyAt(tasks, i)
    ensures var r := SaveRunning(cps, tasks, now);
            var t := tasks[i];
            if t.state == Running && t.checkpoint then t.id in r && r[t.id] == Checkpoint(t.progress, map[], now)
            else (t.id in r <==> t.id in cps) && (t.id in cps ==> r[t.id] == cps[t.id])
    decreases |tasks|
  {
    var next := if tasks[0].state == Running && tasks[0].checkpoint then Saved(cps, tasks[0], map[], now) else cps;
    if i == 0 {
      forall j | 0 <= j < |tasks[1..]| ensures tasks[1..][j].id != tasks[0].id {
        assert tasks[j + 1].id != tasks[0].id;
      }
      SaveRunningOther(next, tasks[1..], now, tasks[0].id);
    } else {
      assert tasks[0].id != tasks[i].id;
      SaveRunningAt(next, tasks[1..], now, i - 1);
    }
  }

  lemma {:induction false} WorkPhaseAt(c: Cluster, i: nat)
    requires Tracked(c, i)
    ensures var r := WorkPhase(c);
            && Tracked(r, i) && r.tasks[i] == Complete(Advance(c.tasks[i], c.tick))
            && (c.tasks[i].state == Running && c.tasks[i].checkpoint ==>
                  c.tasks[i].id in r.checkpoints
                  && r.checkpoints[c.tasks[i].id] == Checkpoint(r.tasks[i].progress, map[], c.now))
  {
    var advanced := AdvanceAll(c.tasks, c.tick);
    assert OnlyAt(advanced, i);
    SaveRunningAt(c.checkpoints, advanced, c.now, i);
  }

  ghost predicate StepKeeps(s: Step, id: TaskId) {
    s.Tick? || Keeps(s.action, id)
  }

  lemma {:induction false} ScheduleKeeps(c: Cluster, at: real, a: Action, id: TaskId)
    requires EventsKeep(c.events, id) && Keeps(a, id)
    ensures EventsKeep(Schedule(c, at, a).events, id)
  {
    var events := c.events + [Event(at, a)];
    SortPermutes(events, Earlier);
    SameElements(Sort(events, Earlier), events);
    forall k | 0 <= k < |Sort(events, Earlier)| ensures Keeps(Sort(events, Earlier)[k].action, id) {
      assert Sort(events, Earlier)[k] in events;
    }
  }

  /** Only a tick makes a task progress: it is advanced once, from wherever it was moved to. */
  lemma {:induction false} StepFollows(c: Cluster, s: Step, i: nat)
    requires Good(c) && NewStep(s) && Tracked(c, i)
    requires EventsKeep(c.events, c.tasks[i].id) && StepKeeps(s, c.tasks[i].id)
    ensures var r := StepOnce(c, s);
            && Tracked(r, i) && r.tick == c.tick && EventsKeep(r.events, c.tasks[i].id)
            && r.tasks[i].id == c.tasks[i].id && r.tasks[i].totalWork == c.tasks[i].totalWork
            && (s.Tick? ==> exists m :: Moved(c.tasks[i], m) && r.tasks[i] == Complete(Advance(m, c.tick)))
            && (!s.Tick? ==> Moved(c.tasks[i], r.tasks[i]))
  {
    match s
    case Tick =>
      HealthPhaseFollows(c, i);
      WorkPhaseAt(HealthPhase(c), i);
    case Do(a) =>
      assert TaskOk(c.tracker, c.agents, c.tasks[i]);
      PerformFollows(c, a, i);
    case At(at, a) => ScheduleKeeps(c, at, a, c.tasks[i].id);
  }

  // ---- completed tasks stay completed ----

  lemma {:induction false} CompletedIsAbsorbing(c: Cluster, steps: seq<Step>, i: nat)
    requires Good(c) && OnlyAt(c.tasks, i) && c.tasks[i].state == Completed
    requires EventsKeep(c.events, c.tasks[i].id)
    requires forall k :: 0 <= k < |steps| ==> NewStep(steps[k]) && StepKeeps(steps[k], c.tasks[i].id)
    ensures i < |RunSteps(c, steps).tasks| && RunSteps(c, steps).tasks[i] == c.tasks[i]
    decreases |steps|
  {
    if |steps| > 0 {
      StepGood(c, steps[0]);
      StepFollows(c, steps[0], i);
      CompletedIsAbsorbing(StepOnce(c, steps[0]), steps[1..], i);
    }
  }

  // ---- progress and completion ----

  function Ticks(steps: seq<Step>): nat {
    if |steps| == 0 then 0 else (if steps[0].Tick? then 1 else 0) + Ticks(steps[1..])
  }

  function Ceiling(x: real): int { -((-x).Floor) }

  /** Ticks that a task with `done` of `total` work needs: at least one, even if there is nothing left to do. */
  function TicksNeeded(total: real, done: real, tick: real): int
    requires tick > 0.0
  {
    var n := Ceiling((total - done) / tick);
    if n < 1 then 1 else n
  }

  /** `n` ticks, at least one, cover the work that is left. */
  predicate Enough(total: real, done: real, tick: real, n: nat) {
    n >= 1 && done + Span(tick, n) >= total
  }

  function ProgressAfter(total: real, done: real, tick: real, n: nat): real {
    if n == 0 then done else Min(total, done + Span(tick, n))
  }

  lemma {:induction false} EnoughExactly(total: real, done: real, tick: real, n: nat)
    requires tick > 0.0
    ensures Enough(total, done, tick, n) <==> n >= TicksNeeded(total, done, tick)
  {
    SpanIsProduct(tick, n);
    QuotientBound(total - done, tick, n);
  }

  lemma {:induction false} QuotientBound(left: real, tick: real, n: nat)
    requires tick > 0.0
    ensures n >= Ceiling(left / tick) <==> tick * n as real >= left
  {
    var q := left / tick;
    assert n >= Ceiling(q) <==> n as real >= q;
    assert tick * q == left;
    if n as real >= q {
      ProductOrder(tick, q, n as real);
    } else {
      ProductOrder(tick, n as real, q);
      assert tick * (q - n as real) > 0.0;
    }
  }

  lemma {:induction false} ProductOrder(tick: real, a: real, b: real)
    requires tick > 0.0 && a <= b
    ensures tick * b - tick * a == tick * (b - a)
    ensures tick * a <= tick * b
  {
    assert tick * (b - a) >= 0.0;
  }

  /** The task after `n` ticks if it has not lost its node: running with its share of work done, or completed. */
  ghost predicate OnSchedule(t: Task, total: real, done: real, tick: real, n: nat) {
    && t.totalWork == total
    && Plain(t)
    && (t.state == Running ==> t.progress == ProgressAfter(total, done, tick, n) && !Enough(total, done, tick, n))
    && (t.state == Completed ==> t.progress == total && Enough(total, done, tick, n))
  }

  lemma {:induction false} AdvanceOnSchedule(t: Task, m: Task, total: real, done: real, tick: real, n: nat)
    requires tick > 0.0 && OnSchedule(t, total, done, tick, n) && Moved(t, m)
    ensures OnSchedule(Complete(Advance(m, tick)), total, done, tick, n + 1)
  {
    assert Span(tick, n + 1) == tick + Span(tick, n);
  }

  lemma {:induction false} StepOnSchedule(c: Cluster, s: Step, i: nat, total: real, done: real, n: nat)
    requires Good(c) && NewStep(s) && Tracked(c, i) && c.tick > 0.0
    requires EventsKeep(c.events, c.tasks[i].id) && StepKeeps(s, c.tasks[i].id)
    requires OnSchedule(c.tasks[i], total, done, c.tick, n)
    ensures i < |StepOnce(c, s).tasks|
    ensures OnSchedule(StepOnce(c, s).tasks[i], total, done, c.tick, if s.Tick? then n + 1 else n)
  {
    StepFollows(c, s, i);
    if s.Tick? {
      var m :| Moved(c.tasks[i], m) && StepOnce(c, s).tasks[i] == Complete(Advance(m, c.tick));
      AdvanceOnSchedule(c.tasks[i], m, total, done, c.tick, n);
    }
  }

  /** What a run needs so that its later steps can be followed in turn. */
  lemma {:induction false} StepContinues(c: Cluster, s: Step, i: nat)
    requires Good(c) && NewStep(s) && Tracked(c, i)
    requires EventsKeep(c.events, c.tasks[i].id) && StepKeeps(s, c.tasks[i].id)
    ensures var r := StepOnce(c, s);
            && Good(r) && Tracked(r, i) && r.tick == c.tick && r.tasks[i].id == c.tasks[i].id
            && EventsKeep(r.events, c.tasks[i].id)
  {
    StepGood(c, s);
    StepFollows(c, s, i);
  }

  lemma {:induction false} RunOnSchedule(c: Cluster, steps: seq<Step>, i: nat, total: real, done: real, n: nat,
                                         end: nat)
    requires Good(c) && Tracked(c, i) && c.tick > 0.0 && EventsKeep(c.events, c.tasks[i].id)
    requires forall k :: 0 <= k < |steps| ==> NewStep(steps[k]) && StepKeeps(steps[k], c.tasks[i].id)
    requires OnSchedule(c.tasks[i], total, done, c.tick, n) && end == n + Ticks(steps)
    ensures i < |RunSteps(c, steps).tasks|
    ensures OnSchedule(RunSteps(c, steps).tasks[i], total, done, c.tick, end)
    decreases |steps|
  {
    if |steps| > 0 {
      var next := if steps[0].Tick? then n + 1 else n;
      StepContinues(c, steps[0], i);
      StepOnSchedule(c, steps[0], i, total, done, n);
      RunOnSchedule(StepOnce(c, steps[0]), steps[1..], i, total, done, next, end);
    }
  }

  /**
   * A task that runs with progress `done` and then sees a run with n ticks is afterwards either pending (it was
   * orphaned when no node could take it), or running with progress min(total, done + n * tick) and n below the
   * ticks it needs, or completed with n at least that number, however often it was stolen in between.
   */
  lemma {:induction false} CompletionBound(c: Cluster, steps: seq<Step>, i: nat, total: real, done: real, n: nat)
    requires Good(c) && Tracked(c, i) && c.tick > 0.0 && EventsKeep(c.events, c.tasks[i].id)
    requires forall k :: 0 <= k < |steps| ==> NewStep(steps[k]) && StepKeeps(steps[k], c.tasks[i].id)
    requires c.tasks[i].state == Running && c.tasks[i].totalWork == total && c.tasks[i].progress == done
    requires n == Ticks(steps)
    ensures i < |RunSteps(c, steps).tasks|
    ensures var t := RunSteps(c, steps).tasks[i];
            && (t.state == Running || t.state == Completed || t.state == Pending)
            && (t.state == Running ==>
                 n < TicksNeeded(total, done, c.tick) && t.progress == ProgressAfter(total, done, c.tick, n))
            && (t.state == Completed ==> n >= TicksNeeded(total, done, c.tick) && t.progress == total)
  {
    RunOnSchedule(c, steps, i, total, done, 0, n);
    ScheduleInTicks(RunSteps(c, steps).tasks[i], total, done, c.tick, n);
  }

  lemma {:induction false} ScheduleInTicks(t: Task, total: real, done: real, tick: real, n: nat)
    requires tick > 0.0 && OnSchedule(t, total, done, tick, n)
    ensures t.state == Running || t.state == Completed || t.state == Pending
    ensures t.state == Running ==>
      n < TicksNeeded(total, done, tick) && t.progress == ProgressAfter(total, done, tick, n)
    ensures t.state == Completed ==> n >= TicksNeeded(total, done, tick) && t.progress == total
  {
    EnoughExactly(total, done, tick, n);
  }
}
