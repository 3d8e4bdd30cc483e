/** mesh/execution/executor.py running `counter` of mesh/tasks/builtins.py: interrupt, save, restore, run again. */
module Execution {
  import opened Sorting
  import opened Models
  import opened Checkpointing

  /** What one `set_progress` call meets: an interrupt set by then or not, and its clock readings. */
  datatype Moment = Moment(interrupt: bool, now: real, stamp: real, mark: real)

  /** One moment for each value of the loop counter. */
  type Plan = int -> Moment

  /** The fields of a `TaskContext`. */
  datatype Context = Context(progress: real, state: map<string, int>, lastAt: real)

  /** A context with the task it updates and the checkpoint table it saves to. */
  datatype Exec = Exec(ctx: Context, task: Task, cps: Checkpoints)

  function Fresh(task: Task, cps: Checkpoints): Exec { Exec(Context(0.0, map[], 0.0), task, cps) }

  function Load(x: Exec): Exec {
    if x.task.id !in x.cps then x
    else
      var cp := x.cps[x.task.id];
      x.(ctx := x.ctx.(progress := cp.progress, state := cp.stateData),
         task := x.task.(progress := cp.progress, stateData := cp.stateData))
  }

  function Save(x: Exec, m: Moment): Exec {
    var task := x.task.(progress := x.ctx.progress);
    x.(ctx := x.ctx.(lastAt := m.mark), task := task, cps := Saved(x.cps, task, x.ctx.state, m.stamp))
  }

  /** `set_progress(value, count=count)`; the flag says that it raised `TaskInterrupted`. */
  function SetProgress(x: Exec, value: real, count: int, m: Moment): (Exec, bool) {
    if m.interrupt then (Save(x, m), true)
    else
      var progress := Min(value, x.task.totalWork);
      var state := x.ctx.state["count" := count];
      var y := x.(ctx := x.ctx.(progress := progress, state := state),
                  task := x.task.(progress := progress, stateData := state));
      if x.task.checkpoint && m.now - x.ctx.lastAt >= x.task.checkpointInterval then (Save(y, m), false) else (y, false)
  }

  /** How a run of the counter ended, and the progress values it had accepted. */
  datatype Outcome = Outcome(exec: Exec, raised: bool, accepted: seq<real>)

  function CountFrom(x: Exec, i: int, target: int, plan: Plan): Outcome
    decreases target - i
  {
    if i >= target then Outcome(x, false, [])
    else
      var (y, raised) := SetProgress(x, (i + 1) as real, i + 1, plan(i));
      if raised then Outcome(y, true, [])
      else
        var rest := CountFrom(y, i + 1, target, plan);
        rest.(accepted := [y.ctx.progress] + rest.accepted)
  }

  /** What the call leaves in the checkpoint table: `saved`, or what was there before. */
  ghost predicate SavesOnly(cps: Checkpoints, r: Checkpoints, id: TaskId, saved: Option<Checkpoint>) {
    && (forall other :: other != id ==> (other in r <==> other in cps) && (other in r ==> r[other] == cps[other]))
    && (saved.Some? ==> id in r && r[id] == saved.value)
    && (saved.None? ==> (id in r <==> id in cps) && (id in r ==> r[id] == cps[id]))
  }

  /**
   * One call of `set_progress`. With an interrupt it saves the progress and state from before the call and raises.
   * Otherwise it sets progress, up to the total, and count, in the context and in the task, and saves them if and
   * only if the task wants checkpoints and its interval has passed since the last save; only a save sets that time.
   */
  lemma {:induction false} SetProgressSaves(x: Exec, value: real, count: int, m: Moment)
    ensures var (y, raised) := SetProgress(x, value, count, m);
            var due := x.task.checkpoint && m.now >= x.ctx.lastAt + x.task.checkpointInterval;
            && raised == m.interrupt
            && y.ctx.lastAt == (if raised || due then m.mark else x.ctx.lastAt)
            && (raised ==>
                  && y.ctx.progress == x.ctx.progress && y.ctx.state == x.ctx.state
                  && y.task == x.task.(progress := x.ctx.progress)
                  && SavesOnly(x.cps, y.cps, x.task.id, Some(Checkpoint(x.ctx.progress, x.ctx.state, m.stamp))))
            && (!raised ==>
                  && y.ctx.progress == Min(value, x.task.totalWork)
                  && "count" in y.ctx.state && y.ctx.state["count"] == count
                  && (forall key :: key != "count" ==>
                        (key in y.ctx.state <==> key in x.ctx.state)
                        && (key in x.ctx.state ==> y.ctx.state[key] == x.ctx.state[key]))
                  && y.task == x.task.(progress := y.ctx.progress, stateData := y.ctx.state)
                  && SavesOnly(x.cps, y.cps, x.task.id,
                               if due then Some(Checkpoint(y.ctx.progress, y.ctx.state, m.stamp)) else None))
  {
  }

  lemma {:induction false} CountFromStep(x: Exec, i: int, target: int, plan: Plan, accepted: seq<real>)
    requires i < target
    ensures var (y, raised) := SetProgress(x, (i + 1) as real, i + 1, plan(i));
            var all := CountFrom(x, i, target, plan);
            var rest := CountFrom(y, i + 1, target, plan);
            all.(accepted := accepted + all.accepted) ==
              if raised then Outcome(y, true, accepted)
              else rest.(accepted := accepted + [y.ctx.progress] + rest.accepted)
  {
    var (y, raised) := SetProgress(x, (i + 1) as real, i + 1, plan(i));
    if raised {
      assert accepted + [] == accepted;
    } else {
      var rest := CountFrom(y, i + 1, target, plan);
      assert accepted + ([y.ctx.progress] + rest.accepted) == accepted + [y.ctx.progress] + rest.accepted;
    }
  }

  /** Python's `int()`: rounds toward zero. */
  function Truncate(x: real): int { if x >= 0.0 then x.Floor else -((-x).Floor) }

  lemma {:induction false} TruncatesTowardZero(x: real, k: int)
    ensures Truncate(x) == k <==>
      if x >= 0.0 then k as real <= x < k as real + 1.0 else k as real - 1.0 < x <= k as real
  {
  }

  function Counter(x: Exec, plan: Plan): Outcome {
    CountFrom(x, Truncate(x.ctx.progress), Truncate(x.task.totalWork), plan)
  }

  function Finish(t: Task): Task {
    t.(progress := Max(t.totalWork, t.progress), state := Completed)
  }

  /** `execute(counter, spec)`. */
  function Execute(task: Task, cps: Checkpoints, plan: Plan): Outcome {
    var o := Counter(Load(Fresh(task, cps)), plan);
    if o.raised then o else o.(exec := o.exec.(task := Finish(o.exec.task)))
  }

  // ---- the same as objects ----

  class TaskContext {
    const spec: TaskSpec
    const manager: CheckpointManager
    var interrupt: bool
    var progress: real
    var state: map<string, int>
    var lastCheckpointAt: real

    function View(): Exec
      reads this, spec, manager
    {
      Exec(Context(progress, state, lastCheckpointAt), spec.View(), manager.table)
    }

    constructor (spec: TaskSpec, manager: CheckpointManager)
      ensures this.spec == spec && this.manager == manager && !interrupt
      ensures View() == Fresh(spec.View(), manager.table)
      ensures progress == 0.0 && state == map[] && lastCheckpointAt == 0.0
    {
      this.spec, this.manager := spec, manager;
      interrupt, progress, state, lastCheckpointAt := false, 0.0, map[], 0.0;
    }

    method RestoreFromCheckpoint() returns (found: bool)
      modifies this, spec
      ensures View() == Load(old(View())) && interrupt == old(interrupt)
      ensures found <==> spec.id in manager.table
    {
      if spec.id !in manager.table {
        return false;
      }
      var cp := manager.table[spec.id];
      progress := cp.progress;
      state := cp.stateData;
      spec.progress := cp.progress;
      spec.stateData := cp.stateData;
      found := true;
    }

    method Checkpoint(m: Moment)
      modifies this, spec, manager
      ensures View() == Save(old(View()), m) && interrupt == old(interrupt)
    {
      spec.progress := progress;
      manager.Save(spec, state, m.stamp);
      lastCheckpointAt := m.mark;
    }

    /** Raising is reported by the result; the interrupt flag is what the moment says it is by now. */
    method SetTaskProgress(value: real, count: int, m: Moment) returns (raised: bool)
      requires interrupt == m.interrupt
      modifies this, spec, manager
      ensures (View(), raised) == SetProgress(old(View()), value, count, m)
    {
      if interrupt {
        Checkpoint(m);
        return true;
      }
      progress := Min(value, spec.totalWork);
      spec.progress := progress;
      state := state["count" := count];
      spec.stateData := state;
      if spec.checkpoint && m.now - lastCheckpointAt >= spec.checkpointInterval {
        Checkpoint(m);
      }
      raised := false;
    }
  }

  /** From count `i` on, after the values in `accepted`, the loop ends as `goal` says. */
  ghost predicate Leads(x: Exec, i: int, target: int, plan: Plan, accepted: seq<real>, goal: Outcome) {
    var rest := CountFrom(x, i, target, plan);
    rest.(accepted := accepted + rest.accepted) == goal
  }

  /** One round of the loop. */
  method CountOnce(ctx: TaskContext, i: int, target: int, plan: Plan, ghost accepted: seq<real>, ghost goal: Outcome)
    returns (raised: bool, ghost longer: seq<real>)
    requires i < target && Leads(ctx.View(), i, target, plan, accepted, goal)
    modifies ctx, ctx.spec, ctx.manager
    ensures if raised then Outcome(ctx.View(), true, longer) == goal
            else Leads(ctx.View(), i + 1, target, plan, longer, goal)
  {
    CountFromStep(ctx.View(), i, target, plan, accepted);
    ctx.interrupt := plan(i).interrupt;
    raised := ctx.SetTaskProgress((i + 1) as real, i + 1, plan(i));
    longer := if raised then accepted else accepted + [ctx.progress];
  }

  /** The loop of `counter`; `accepted` records the progress values that were set. */
  method RunCounter(ctx: TaskContext, plan: Plan) returns (raised: bool, ghost accepted: seq<real>)
    modifies ctx, ctx.spec, ctx.manager
    ensures Outcome(ctx.View(), raised, accepted) == Counter(old(ctx.View()), plan)
  {
    var target := Truncate(ctx.spec.totalWork);
    var i := Truncate(ctx.progress);
    accepted := [];
    ghost var goal := Counter(ctx.View(), plan);
    while i < target
      invariant Leads(ctx.View(), i, target, plan, accepted, goal)
    {
      raised, accepted := CountOnce(ctx, i, target, plan, accepted, goal);
      if raised {
        return;
      }
      i := i + 1;
    }
    raised := false;
    assert accepted + [] == accepted;
  }

  class TaskExecutor {
    const manager: CheckpointManager

    constructor (manager: CheckpointManager)
      ensures this.manager == manager
    {
      this.manager := manager;
    }

    /** Returns the count, or nothing when the task was interrupted. */
    method ExecuteCounter(spec: TaskSpec, plan: Plan) returns (result: Option<int>, ghost accepted: seq<real>)
      modifies spec, manager
      ensures var o := Execute(old(spec.View()), old(manager.table), plan);
              && spec.View() == o.exec.task && manager.table == o.exec.cps && accepted == o.accepted
              && result == if o.raised then None else Some(Truncate(spec.totalWork))
    {
      var ctx := new TaskContext(spec, manager);
      var _ := ctx.RestoreFromCheckpoint();
      var raised;
      raised, accepted := RunCounter(ctx, plan);
      if raised {
        return None, accepted;
      }
      if spec.progress < spec.totalWork {
        spec.progress := spec.totalWork;
      }
      spec.state := Completed;
      result := Some(Truncate(spec.totalWork));
    }
  }

  // ---- interrupted and resumed runs refine one uninterrupted run ----

  /** Attempts one after the other until one completes; each starts from what the last one left. */
  function Attempts(task: Task, cps: Checkpoints, plans: seq<Plan>): Outcome
    decreases |plans|
  {
    if |plans| == 0 then Outcome(Fresh(task, cps), true, [])
    else
      var o := Execute(task, cps, plans[0]);
      if !o.raised then o
      else
        var rest := Attempts(o.exec.task, o.exec.cps, plans[1..]);
        rest.(accepted := o.accepted + rest.accepted)
  }

  /** The values i + 1, ..., c. */
  function UpTo(i: int, c: int): seq<real>
    decreases c - i
  {
    if i >= c then [] else [(i + 1) as real] + UpTo(i + 1, c)
  }

  lemma {:induction false} UpToAppend(i: int, k: int, c: int)
    requires i <= k <= c
    ensures UpTo(i, k) + UpTo(k, c) == UpTo(i, c)
    decreases k - i
  {
    if i < k {
      UpToAppend(i + 1, k, c);
      assert [(i + 1) as real] + (UpTo(i + 1, k) + UpTo(k, c)) == UpTo(i, k) + UpTo(k, c);
    } else {
      assert [] + UpTo(k, c) == UpTo(k, c);
    }
  }

  function CountState(i: int): map<string, int> { if i <= 0 then map[] else map["count" := i] }

  /** The context stands at count `i`. */
  ghost predicate StandsAt(x: Exec, i: int) {
    x.ctx.progress == i as real && x.ctx.state == CountState(i)
  }

  /** The task's checkpoint is at count `i`. */
  ghost predicate SavedAt(cps: Checkpoints, id: TaskId, i: int) {
    id in cps && cps[id].progress == i as real && cps[id].stateData == CountState(i)
  }

  ghost predicate SameSpec(a: Task, b: Task) {
    a == b.(progress := a.progress, stateData := a.stateData, state := a.state)
  }

  /**
   * Whichever calls are interrupted, the counter accepts i + 1, i + 2, ... in order and saves exactly where it
   * stops.
   */
  lemma {:induction false} CountFromFacts(x: Exec, i: int, target: int, plan: Plan) returns (c: int)
    requires StandsAt(x, i) && 0 <= i <= target && (i < target ==> target as real <= x.task.totalWork)
    ensures var o := CountFrom(x, i, target, plan);
            && i <= c <= target && o.accepted == UpTo(i, c)
            && SameSpec(o.exec.task, x.task) && o.exec.task.state == x.task.state
            && (o.raised ==> c < target && SavedAt(o.exec.cps, x.task.id, c))
            && (!o.raised ==> c == target)
            && (!o.raised && i < target ==>
                  o.exec.task.progress == target as real && o.exec.task.stateData == CountState(target))
            && (!o.raised && i == target ==> o.exec == x)
    decreases target - i
  {
    if i == target {
      c := i;
    } else {
      var (y, raised) := SetProgress(x, (i + 1) as real, i + 1, plan(i));
      if raised {
        c := i;
      } else {
        c := CountFromFacts(y, i + 1, target, plan);
      }
    }
  }

  /** One attempt of a fresh task, or of one saved at count `i`. */
  lemma {:induction false} ExecuteFacts(task: Task, cps: Checkpoints, i: int, plan: Plan) returns (c: int)
    requires 0 <= i <= Truncate(task.totalWork)
    requires if task.id in cps then SavedAt(cps, task.id, i) else i == 0
    ensures var o := Execute(task, cps, plan);
            var target := Truncate(task.totalWork);
            && i <= c <= target && o.accepted == UpTo(i, c)
            && SameSpec(o.exec.task, task)
            && (o.raised ==> c < target && SavedAt(o.exec.cps, task.id, c))
            && (!o.raised ==> c == target)
            && (!o.raised ==> o.exec.task.state == Completed && o.exec.task.progress >= task.totalWork)
            && (!o.raised && 0 < target ==>
                  o.exec.task == task.(progress := task.totalWork, stateData := CountState(target), state := Completed))
  {
    var x := Load(Fresh(task, cps));
    var target := Truncate(task.totalWork);
    c := CountFromFacts(x, i, target, plan);
  }

  /**
   * From a fresh start, or from count `i`, the values accepted by all attempts together are i + 1, ..., c, each
   * once and in order; when an attempt completes, c is the target and nothing of the interruptions is left.
   */
  lemma {:induction false} AttemptsFrom(task: Task, cps: Checkpoints, i: int, plans: seq<Plan>) returns (c: int)
    requires 0 <= i <= Truncate(task.totalWork)
    requires if task.id in cps then SavedAt(cps, task.id, i) else i == 0
    ensures var o := Attempts(task, cps, plans);
            var target := Truncate(task.totalWork);
            && i <= c <= target && o.accepted == UpTo(i, c)
            && (!o.raised ==> c == target)
            && (!o.raised && 0 < target ==>
                  o.exec.task == task.(progress := task.totalWork, stateData := CountState(target), state := Completed))
    decreases |plans|
  {
    if |plans| == 0 {
      c := i;
    } else {
      var o := Execute(task, cps, plans[0]);
      var k := ExecuteFacts(task, cps, i, plans[0]);
      if o.raised {
        c := AttemptsFrom(o.exec.task, o.exec.cps, k, plans[1..]);
        UpToAppend(i, k, c);
      } else {
        c := k;
      }
    }
  }

  /** The plan in which nothing interrupts. */
  ghost predicate Undisturbed(plan: Plan) {
    forall i :: !plan(i).interrupt
  }

  lemma {:induction false} UndisturbedCompletes(x: Exec, i: int, target: int, plan: Plan)
    requires Undisturbed(plan)
    ensures !CountFrom(x, i, target, plan).raised
    decreases target - i
  {
    if i < target {
      UndisturbedCompletes(SetProgress(x, (i + 1) as real, i + 1, plan(i)).0, i + 1, target, plan);
    }
  }

  /**
   * Interrupting and resuming a task that starts without a checkpoint refines one undisturbed run: together the
   * attempts accept a prefix of the same values, and when one completes, all of them and the same final task.
   */
  lemma {:induction false} ResumeRefines(task: Task, cps: Checkpoints, plans: seq<Plan>, whole: Plan)
    requires task.id !in cps && Undisturbed(whole)
    ensures !Execute(task, cps, whole).raised
    ensures var o := Attempts(task, cps, plans);
            var one := Execute(task, cps, whole);
            && one.accepted == UpTo(0, Truncate(task.totalWork))
            && o.accepted <= one.accepted
            && (!o.raised ==> o.accepted == one.accepted && o.exec.task == one.exec.task)
  {
    var target := Truncate(task.totalWork);
    UndisturbedCompletes(Load(Fresh(task, cps)), 0, target, whole);
    if target >= 1 {
      var all := ExecuteFacts(task, cps, 0, whole);
      var c := AttemptsFrom(task, cps, 0, plans);
      UpToAppend(0, c, all);
    }
  }
}
