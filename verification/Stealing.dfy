/** mesh/recovery/work_stealing.py: orphaned tasks move to other nodes. */
module Stealing {
  import opened Sorting
  import opened Models
  import opened Placement
  import opened Checkpointing
  import opened NodeChoices

  predicate IsOrphan(t: Task, dead: set<NodeId>) {
    && t.node.Some? && t.node.value in dead
    && (t.state == Running || t.state == Paused || t.state == Checkpointing)
  }

  /** One round of the stealing loop: `used` are the nodes that earlier rounds took. */
  function StealOne(e: Engine, cps: Checkpoints, healthy: seq<Node>, used: set<NodeId>, t: Task): Task {
    var moving := Restored(cps, t).(state := Migrating);
    var candidates := Filter(healthy, (n: Node) => n.id !in used || |healthy| == 1);
    match Place(e, moving, candidates)
    case Some(p) => moving.(node := Some(p.node), state := Running)
    case None => moving.(state := Pending, node := None)
  }

  function StealAll(e: Engine, cps: Checkpoints, healthy: seq<Node>, used: set<NodeId>, ts: seq<Task>): (r: seq<Task>)
    ensures |r| == |ts|
    decreases |ts|
  {
    if |ts| == 0 then []
    else
      var t := StealOne(e, cps, healthy, used, ts[0]);
      [t] + StealAll(e, cps, healthy, UsedWith(used, t.node), ts[1..])
  }

  /** Where the tasks are assigned. */
  function Homes(ts: seq<Task>): (r: seq<Option<NodeId>>)
    ensures |r| == |ts| && forall i :: 0 <= i < |ts| ==> r[i] == ts[i].node
  {
    seq(|ts|, i requires 0 <= i < |ts| => ts[i].node)
  }

  /** Each orphan is stolen by one round that knows the nodes of all earlier ones. */
  lemma {:induction false} StealAllAt(e: Engine, cps: Checkpoints, healthy: seq<Node>, used: set<NodeId>,
                                      ts: seq<Task>, i: nat)
    requires i < |ts|
    ensures var r := StealAll(e, cps, healthy, used, ts);
            r[i] == StealOne(e, cps, healthy, UsedAfter(used, Homes(r), i), ts[i])
    decreases |ts|
  {
    if i > 0 {
      var r := StealAll(e, cps, healthy, used, ts);
      var used' := UsedWith(used, r[0].node);
      var rest := StealAll(e, cps, healthy, used', ts[1..]);
      assert r[1..] == rest && Homes(r)[1..] == Homes(rest);
      StealAllAt(e, cps, healthy, used', ts[1..], i - 1);
      UsedAfterTail(used, Homes(r), i);
      assert r[i] == rest[i - 1] && ts[i] == ts[1..][i - 1];
    }
  }

  class WorkStealer {
    var engine: Engine
    const checkpoints: CheckpointManager

    constructor (engine: Engine, checkpoints: CheckpointManager)
      ensures this.engine == engine && this.checkpoints == checkpoints
    {
      this.engine, this.checkpoints := engine, checkpoints;
    }

    method StealTask(task: TaskSpec, healthy: seq<Node>, used: set<NodeId>)
      modifies task
      ensures task.View() == StealOne(engine, checkpoints.table, healthy, used, old(task.View()))
    {
      checkpoints.Restore(task);
      task.state := Migrating;
      var candidates := Filter(healthy, (n: Node) => n.id !in used || |healthy| == 1);
      var placement := Place(engine, task.View(), candidates);
      if placement.Some? {
        task.node := Some(placement.value.node);
        task.state := Running;
      } else {
        task.state := Pending;
        task.node := None;
      }
    }

    /** What the loop works towards: the configuration stays, and `goal` is what `before` becomes. */
    ghost predicate Aims(e: Engine, cps: Checkpoints, healthy: seq<Node>, before: seq<Task>, goal: seq<Task>)
      reads this, checkpoints
    {
      engine == e && checkpoints.table == cps && goal == StealAll(e, cps, healthy, {}, before)
    }

    /** After `i` rounds: the first `i` tasks and results are as in `goal`, and `used` are the nodes they took. */
    ghost predicate Stolen(tasks: seq<TaskSpec>, i: nat, before: seq<Task>, goal: seq<Task>, used: set<NodeId>,
                           results: seq<(TaskSpec, Option<NodeId>)>)
      reads tasks
    {
      && i <= |tasks| == |before| == |goal| && |results| == i
      && used == UsedAfter({}, Homes(goal), i)
      && (forall j :: 0 <= j < i ==> results[j] == (tasks[j], goal[j].node))
      && (forall j :: 0 <= j < |tasks| ==> Views(tasks)[j] == if j < i then goal[j] else before[j])
    }

    /** One task: of all the task objects only the `i`-th changes. */
    method StealAt(tasks: seq<TaskSpec>, i: nat, healthy: seq<Node>, used: set<NodeId>, ghost before: seq<Task>,
                   ghost goal: seq<Task>)
      returns (node: Option<NodeId>)
      requires Distinct(tasks) && i < |tasks| == |before| && tasks[i].View() == before[i]
      requires goal == StealAll(engine, checkpoints.table, healthy, {}, before) && used == UsedAfter({}, Homes(goal), i)
      modifies tasks[i]
      ensures Views(tasks) == old(Views(tasks))[i := goal[i]] && node == goal[i].node
    {
      StealAllAt(engine, checkpoints.table, healthy, {}, before, i);
      StealTask(tasks[i], healthy, used);
      node := tasks[i].node;
    }

    /** One round of the loop. */
    method StealRound(tasks: seq<TaskSpec>, i: nat, healthy: seq<Node>, used: set<NodeId>,
                      results: seq<(TaskSpec, Option<NodeId>)>, ghost e: Engine, ghost cps: Checkpoints,
                      ghost before: seq<Task>, ghost goal: seq<Task>)
      returns (used': set<NodeId>, longer: seq<(TaskSpec, Option<NodeId>)>)
      requires Distinct(tasks) && i < |tasks| && Stolen(tasks, i, before, goal, used, results)
      requires Aims(e, cps, healthy, before, goal)
      modifies tasks[i]
      ensures Aims(e, cps, healthy, before, goal)
      ensures Stolen(tasks, i + 1, before, goal, used', longer)
    {
      var node := StealAt(tasks, i, healthy, used, before, goal);
      used' := if node.Some? then used + {node.value} else used;
      longer := results + [(tasks[i], node)];
    }

    /** The loop, with what it works towards. */
    method StealEach(tasks: seq<TaskSpec>, healthy: seq<Node>, ghost e: Engine, ghost cps: Checkpoints,
                     ghost before: seq<Task>, ghost goal: seq<Task>)
      returns (results: seq<(TaskSpec, Option<NodeId>)>, ghost used: set<NodeId>)
      requires Distinct(tasks) && Stolen(tasks, 0, before, goal, {}, []) && Aims(e, cps, healthy, before, goal)
      modifies tasks
      ensures Stolen(tasks, |tasks|, before, goal, used, results) && Aims(e, cps, healthy, before, goal)
    {
      results := [];
      var taken: set<NodeId> := {};
      for i := 0 to |tasks|
        invariant Aims(e, cps, healthy, before, goal)
        invariant Stolen(tasks, i, before, goal, taken, results)
      {
        taken, results := StealRound(tasks, i, healthy, taken, results, e, cps, before, goal);
      }
      used := taken;
    }

    method Steal(tasks: seq<TaskSpec>, available: seq<Node>) returns (results: seq<(TaskSpec, Option<NodeId>)>)
      requires Distinct(tasks)
      modifies tasks
      ensures Views(tasks) == StealAll(engine, checkpoints.table, HealthyNodes(available), {}, old(Views(tasks)))
      ensures |results| == |tasks|
      ensures forall i :: 0 <= i < |tasks| ==> results[i] == (tasks[i], tasks[i].node)
    {
      var healthy := HealthyNodes(available);
      ghost var before := Views(tasks);
      ghost var goal := StealAll(engine, checkpoints.table, healthy, {}, before);
      ghost var used;
      results, used := StealEach(tasks, healthy, engine, checkpoints.table, before, goal);
      assert Views(tasks) == goal;
    }
  }

  // ---- the orphans of one node, taken from a task table ----

  /** The orphans of the dead nodes stolen in table order, the other tasks left alone. */
  function StealTable(e: Engine, cps: Checkpoints, healthy: seq<Node>, dead: set<NodeId>, used: set<NodeId>,
                      tasks: seq<Task>): (r: seq<Task>)
    ensures |r| == |tasks|
    decreases |tasks|
  {
    if |tasks| == 0 then []
    else if IsOrphan(tasks[0], dead) then
      var t := StealOne(e, cps, healthy, used, tasks[0]);
      [t] + StealTable(e, cps, healthy, dead, UsedWith(used, t.node), tasks[1..])
    else [tasks[0]] + StealTable(e, cps, healthy, dead, used, tasks[1..])
  }

  predicate HasOrphan(tasks: seq<Task>, dead: set<NodeId>) {
    exists i :: 0 <= i < |tasks| && IsOrphan(tasks[i], dead)
  }

  /** Each orphan of the table is stolen by one round of the loop, with some nodes already used. */
  lemma {:induction false} StealTableAt(e: Engine, cps: Checkpoints, healthy: seq<Node>, dead: set<NodeId>,
                                        used: set<NodeId>, tasks: seq<Task>, i: nat)
    returns (u: set<NodeId>)
    requires i < |tasks|
    ensures StealTable(e, cps, healthy, dead, used, tasks)[i] ==
      if IsOrphan(tasks[i], dead) then StealOne(e, cps, healthy, u, tasks[i]) else tasks[i]
    decreases |tasks|
  {
    if i == 0 {
      u := used;
    } else {
      var used' := if IsOrphan(tasks[0], dead) then UsedWith(used, StealOne(e, cps, healthy, used, tasks[0]).node)
          else used;
      u := StealTableAt(e, cps, healthy, dead, used', tasks[1..], i - 1);
      assert StealTable(e, cps, healthy, dead, used, tasks)[1..] ==
          StealTable(e, cps, healthy, dead, used', tasks[1..]);
    }
  }

  function OrphansOf(tasks: seq<Task>, dead: set<NodeId>): seq<Task> {
    if |tasks| == 0 then []
    else (if IsOrphan(tasks[0], dead) then [tasks[0]] else []) + OrphansOf(tasks[1..], dead)
  }

  /** `find_orphaned_tasks` on the task objects. */
  function FindOrphaned(specs: seq<TaskSpec>, dead: set<NodeId>): (r: seq<TaskSpec>)
    reads specs
    ensures forall x :: x in r ==> x in specs && IsOrphan(x.View(), dead)
  {
    if |specs| == 0 then []
    else (if IsOrphan(specs[0].View(), dead) then [specs[0]] else []) + FindOrphaned(specs[1..], dead)
  }

  /** How many orphans come before index `i`. */
  function Rank(tasks: seq<Task>, i: nat, dead: set<NodeId>): nat
    requires i <= |tasks|
  {
    if i == 0 then 0 else (if IsOrphan(tasks[0], dead) then 1 else 0) + Rank(tasks[1..], i - 1, dead)
  }

  /** The table with its orphans replaced, in order, by `moved`. */
  function Merged(tasks: seq<Task>, moved: seq<Task>, dead: set<NodeId>): (r: seq<Task>)
    requires |moved| == |OrphansOf(tasks, dead)|
    ensures |r| == |tasks|
  {
    if |tasks| == 0 then []
    else if IsOrphan(tasks[0], dead) then [moved[0]] + Merged(tasks[1..], moved[1..], dead)
    else [tasks[0]] + Merged(tasks[1..], moved, dead)
  }

  lemma {:induction false} MergedTail(tasks: seq<Task>, moved: seq<Task>, dead: set<NodeId>) returns (rest: seq<Task>)
    requires |moved| == |OrphansOf(tasks, dead)| && |tasks| > 0
    ensures rest == if IsOrphan(tasks[0], dead) then moved[1..] else moved
    ensures |rest| == |OrphansOf(tasks[1..], dead)|
    ensures Merged(tasks, moved, dead)[1..] == Merged(tasks[1..], rest, dead)
  {
    rest := if IsOrphan(tasks[0], dead) then moved[1..] else moved;
  }

  lemma {:induction false} MergedOrphan(tasks: seq<Task>, moved: seq<Task>, dead: set<NodeId>, i: nat)
    requires |moved| == |OrphansOf(tasks, dead)| && i < |tasks| && IsOrphan(tasks[i], dead)
    ensures Rank(tasks, i, dead) < |moved|
    ensures Merged(tasks, moved, dead)[i] == moved[Rank(tasks, i, dead)]
  {
    if i > 0 {
      var rest := MergedTail(tasks, moved, dead);
      MergedOrphan(tasks[1..], rest, dead, i - 1);
      var k := Rank(tasks[1..], i - 1, dead);
      assert Rank(tasks, i, dead) == if IsOrphan(tasks[0], dead) then k + 1 else k;
      assert Merged(tasks, moved, dead)[i] == Merged(tasks[1..], rest, dead)[i - 1];
    }
  }

  lemma {:induction false} MergedOther(tasks: seq<Task>, moved: seq<Task>, dead: set<NodeId>, i: nat)
    requires |moved| == |OrphansOf(tasks, dead)| && i < |tasks| && !IsOrphan(tasks[i], dead)
    ensures Merged(tasks, moved, dead)[i] == tasks[i]
  {
    if i > 0 {
      var rest := MergedTail(tasks, moved, dead);
      MergedOther(tasks[1..], rest, dead, i - 1);
      assert Merged(tasks, moved, dead)[i] == Merged(tasks[1..], rest, dead)[i - 1];
    }
  }

  /** Stealing in the table is stealing the list of orphans and putting each of them back in its place. */
  lemma {:induction false} StealTableIsStealAll(e: Engine, cps: Checkpoints, healthy: seq<Node>, dead: set<NodeId>,
                                                used: set<NodeId>, tasks: seq<Task>)
    ensures StealTable(e, cps, healthy, dead, used, tasks) ==
      Merged(tasks, StealAll(e, cps, healthy, used, OrphansOf(tasks, dead)), dead)
    decreases |tasks|
  {
    if |tasks| == 0 {
    } else if IsOrphan(tasks[0], dead) {
      StealTablePeels(e, cps, healthy, dead, used, tasks);
      StealTableIsStealAll(e, cps, healthy, dead, UsedWith(used, StealOne(e, cps, healthy, used, tasks[0]).node),
          tasks[1..]);
    } else {
      StealTableKeeps(e, cps, healthy, dead, used, tasks);
      StealTableIsStealAll(e, cps, healthy, dead, used, tasks[1..]);
    }
  }

  /** A table that starts with an orphan and its list of orphans lose the same first task. */
  lemma {:induction false} StealTablePeels(e: Engine, cps: Checkpoints, healthy: seq<Node>, dead: set<NodeId>,
                                           used: set<NodeId>, tasks: seq<Task>)
    requires |tasks| > 0 && IsOrphan(tasks[0], dead)
    ensures var orphans, t := OrphansOf(tasks, dead), StealOne(e, cps, healthy, used, tasks[0]);
            && |orphans| > 0 && orphans[1..] == OrphansOf(tasks[1..], dead)
            && StealTable(e, cps, healthy, dead, used, tasks)[0] == StealAll(e, cps, healthy, used, orphans)[0] == t
            && StealTable(e, cps, healthy, dead, used, tasks)[1..] ==
                 StealTable(e, cps, healthy, dead, UsedWith(used, t.node), tasks[1..])
            && StealAll(e, cps, healthy, used, orphans)[1..] ==
                 StealAll(e, cps, healthy, UsedWith(used, t.node), OrphansOf(tasks[1..], dead))
  {
    var rest := OrphansOf(tasks[1..], dead);
    assert OrphansOf(tasks, dead) == [tasks[0]] + rest;
    assert ([tasks[0]] + rest)[1..] == rest;
  }

  lemma {:induction false} StealTableKeeps(e: Engine, cps: Checkpoints, healthy: seq<Node>, dead: set<NodeId>,
                                           used: set<NodeId>, tasks: seq<Task>)
    requires |tasks| > 0 && !IsOrphan(tasks[0], dead)
    ensures OrphansOf(tasks, dead) == OrphansOf(tasks[1..], dead)
    ensures StealTable(e, cps, healthy, dead, used, tasks)[1..] == StealTable(e, cps, healthy, dead, used, tasks[1..])
  {
    var rest := OrphansOf(tasks[1..], dead);
    assert [] + rest == rest;
  }

  lemma {:induction false} FindOrphanedDistinct(specs: seq<TaskSpec>, dead: set<NodeId>)
    requires Distinct(specs)
    ensures Distinct(FindOrphaned(specs, dead))
  {
    if |specs| > 0 {
      FindOrphanedDistinct(specs[1..], dead);
      var rest := FindOrphaned(specs[1..], dead);
      forall j | 0 <= j < |rest| ensures rest[j] != specs[0] {
        assert rest[j] in rest;
        assert rest[j] in specs[1..];
      }
    }
  }

  lemma {:induction false} FindOrphanedViews(specs: seq<TaskSpec>, dead: set<NodeId>)
    ensures Views(FindOrphaned(specs, dead)) == OrphansOf(Views(specs), dead)
  {
    if |specs| > 0 {
      FindOrphanedViews(specs[1..], dead);
      ViewsTail(specs);
      var rest := FindOrphaned(specs[1..], dead);
      if IsOrphan(specs[0].View(), dead) {
        assert FindOrphaned(specs, dead) == [specs[0]] + rest;
        ViewsCons(specs[0], rest);
      } else {
        assert FindOrphaned(specs, dead) == [] + rest == rest;
        assert OrphansOf(Views(specs), dead) == [] + OrphansOf(Views(specs)[1..], dead) ==
            OrphansOf(Views(specs)[1..], dead);
      }
    }
  }

  lemma {:induction false} FindOrphanedAt(specs: seq<TaskSpec>, dead: set<NodeId>, views: seq<Task>, i: nat)
    requires views == Views(specs) && i < |specs| && IsOrphan(views[i], dead)
    ensures var k := Rank(views, i, dead);
            k < |FindOrphaned(specs, dead)| && FindOrphaned(specs, dead)[k] == specs[i]
  {
    if i > 0 {
      var k, rest := Rank(views[1..], i - 1, dead), FindOrphaned(specs[1..], dead);
      FindOrphanedAt(specs[1..], dead, views[1..], i - 1);
      if IsOrphan(views[0], dead) {
        assert Rank(views, i, dead) == 1 + k && FindOrphaned(specs, dead) == [specs[0]] + rest;
        assert ([specs[0]] + rest)[1 + k] == rest[k];
      } else {
        assert Rank(views, i, dead) == k && FindOrphaned(specs, dead) == [] + rest == rest;
      }
    }
  }

  /** Where index `i` of the table finds its task after the orphans have been stolen. */
  lemma {:induction false} OrphanPlace(e: Engine, cps: Checkpoints, healthy: seq<Node>, specs: seq<TaskSpec>,
                                       dead: set<NodeId>, i: nat)
    requires i < |specs|
    ensures var before := Views(specs);
            var orphans := FindOrphaned(specs, dead);
            var goal := StealTable(e, cps, healthy, dead, {}, before);
            if IsOrphan(before[i], dead) then
              var k := Rank(before, i, dead);
              && k < |orphans| && orphans[k] == specs[i]
              && k < |OrphansOf(before, dead)|
              && goal[i] == StealAll(e, cps, healthy, {}, OrphansOf(before, dead))[k]
            else specs[i] !in orphans && goal[i] == before[i]
  {
    var before := Views(specs);
    StealTableIsStealAll(e, cps, healthy, dead, {}, before);
    var moved := StealAll(e, cps, healthy, {}, OrphansOf(before, dead));
    if IsOrphan(before[i], dead) {
      MergedOrphan(before, moved, dead, i);
      FindOrphanedAt(specs, dead, before, i);
    } else {
      MergedOther(before, moved, dead, i);
    }
  }

  /** The table `goal` agrees with the list `moved`: orphans take their stolen values, other tasks keep their own. */
  ghost predicate Settles(orphans: seq<TaskSpec>, moved: seq<Task>, specs: seq<TaskSpec>, before: seq<Task>,
                          goal: seq<Task>, dead: set<NodeId>)
    requires |specs| == |before| == |goal|
  {
    forall i :: 0 <= i < |specs| ==>
      if IsOrphan(before[i], dead) then
        var k := Rank(before, i, dead);
        k < |orphans| && k < |moved| && orphans[k] == specs[i] && goal[i] == moved[k]
      else specs[i] !in orphans && goal[i] == before[i]
  }

  lemma {:induction false} OrphansSettle(e: Engine, cps: Checkpoints, healthy: seq<Node>, specs: seq<TaskSpec>,
                                         dead: set<NodeId>)
    requires Distinct(specs)
    ensures var before := Views(specs);
            var orphans := FindOrphaned(specs, dead);
            && Distinct(orphans) && Views(orphans) == OrphansOf(before, dead)
            && Settles(orphans, StealAll(e, cps, healthy, {}, OrphansOf(before, dead)), specs, before,
                       StealTable(e, cps, healthy, dead, {}, before), dead)
  {
    FindOrphanedDistinct(specs, dead);
    FindOrphanedViews(specs, dead);
    forall i | 0 <= i < |specs| {
      OrphanPlace(e, cps, healthy, specs, dead, i);
    }
  }

  lemma {:induction false} SettledViews(orphans: seq<TaskSpec>, moved: seq<Task>, specs: seq<TaskSpec>,
                                        before: seq<Task>,
                     goal: seq<Task>, dead: set<NodeId>)
    requires |specs| == |before| == |goal| && Settles(orphans, moved, specs, before, goal, dead)
    requires Views(orphans) == moved
    requires forall i :: 0 <= i < |specs| && specs[i] !in orphans ==> specs[i].View() == before[i]
    ensures Views(specs) == goal
  {
  }

  /** Steals the orphans of a table; tasks of the table that are not orphans are not touched. */
  method StealOrphans(stealer: WorkStealer, specs: seq<TaskSpec>, orphans: seq<TaskSpec>, available: seq<Node>)
    requires Distinct(orphans)
    modifies orphans
    ensures Views(orphans) ==
        StealAll(old(stealer.engine), old(stealer.checkpoints.table), HealthyNodes(available), {}, old(Views(orphans)))
    ensures stealer.engine == old(stealer.engine) && stealer.checkpoints.table == old(stealer.checkpoints.table)
    ensures forall i :: 0 <= i < |specs| && specs[i] !in orphans ==> specs[i].View() == old(specs[i].View())
  {
    var _ := stealer.Steal(orphans, available);
  }

  /** Finds the orphans of the dead nodes in a table of task objects and steals them. */
  method StealFrom(stealer: WorkStealer, specs: seq<TaskSpec>, dead: set<NodeId>, available: seq<Node>)
    requires Distinct(specs)
    modifies specs
    ensures stealer.engine == old(stealer.engine) && stealer.checkpoints.table == old(stealer.checkpoints.table)
    ensures Views(specs) ==
        StealTable(old(stealer.engine), old(stealer.checkpoints.table), HealthyNodes(available), dead, {},
                   old(Views(specs)))
  {
    var orphans := FindOrphaned(specs, dead);
    ghost var before := Views(specs);
    ghost var e, cps, healthy := stealer.engine, stealer.checkpoints.table, HealthyNodes(available);
    OrphansSettle(e, cps, healthy, specs, dead);
    StealOrphans(stealer, specs, orphans, available);
    SettledViews(orphans, StealAll(e, cps, healthy, {}, OrphansOf(before, dead)), specs, before,
                 StealTable(e, cps, healthy, dead, {}, before), dead);
  }

  lemma {:induction false} OrphansListed(specs: seq<TaskSpec>, dead: set<NodeId>)
    ensures var r := FindOrphaned(specs, dead);
            && (|r| == 0 <==> !HasOrphan(Views(specs), dead))
            && (forall i :: 0 <= i < |specs| ==> (specs[i] in r <==> IsOrphan(Views(specs)[i], dead)))
  {
    var r := FindOrphaned(specs, dead);
    forall i | 0 <= i < |specs| && IsOrphan(Views(specs)[i], dead) ensures specs[i] in r {
      FindOrphanedAt(specs, dead, Views(specs), i);
    }
    if |r| > 0 {
      assert r[0] in specs;
      var i :| 0 <= i < |specs| && specs[i] == r[0];
      assert IsOrphan(Views(specs)[i], dead);
    }
  }

  // ---- what stealing guarantees ----

  lemma {:induction false} StealOneFacts(e: Engine, cps: Checkpoints, healthy: seq<Node>, used: set<NodeId>, t: Task)
    ensures var r := StealOne(e, cps, healthy, used, t);
            && Resumed(cps, t, r)
            && (r.node.Some? <==> r.state == Running) && (r.node.None? <==> r.state == Pending)
            && (r.node.Some? ==> exists n :: n in healthy && n.id == r.node.value && Acceptable(e, t, n)
                                            && (n.id !in used || |healthy| == 1))
            && (r.node.None? ==> forall n :: n in healthy && Acceptable(e, t, n) ==> n.id in used && |healthy| != 1)
  {
    var moving := Restored(cps, t).(state := Migrating);
    var candidates := Filter(healthy, (n: Node) => n.id !in used || |healthy| == 1);
    PlaceIsMaximal(e, moving, candidates);
    forall n ensures Acceptable(e, moving, n) <==> Acceptable(e, t, n) {
    }
    if Place(e, moving, candidates).Some? {
      var p := Place(e, moving, candidates).value;
      var n :| IsBest(e, moving, candidates, n) && p.node == n.id;
      assert n in healthy;
    }
  }

  /**
   * Every orphan ends on a healthy node that is acceptable for it, or pending with no node; it is pending
   * only when every acceptable healthy node was taken by an earlier orphan.
   */
  lemma {:induction false} StealAllFacts(e: Engine, cps: Checkpoints, healthy: seq<Node>, ts: seq<Task>, i: nat)
    requires i < |ts|
    ensures var r := StealAll(e, cps, healthy, {}, ts);
            && Resumed(cps, ts[i], r[i])
            && (r[i].node.Some? <==> r[i].state == Running) && (r[i].node.None? <==> r[i].state == Pending)
            && (r[i].node.Some? ==>
                  && (exists n :: n in healthy && n.id == r[i].node.value && Acceptable(e, ts[i], n))
                  && (|healthy| != 1 ==> !Chosen(Homes(r), i, r[i].node.value)))
            && (r[i].node.None? ==> forall n :: n in healthy && Acceptable(e, ts[i], n) ==>
                  |healthy| != 1 && Chosen(Homes(r), i, n.id))
  {
    var r := StealAll(e, cps, healthy, {}, ts);
    StealAllAt(e, cps, healthy, {}, ts, i);
    StealOneFacts(e, cps, healthy, UsedAfter({}, Homes(r), i), ts[i]);
    forall id ensures id in UsedAfter({}, Homes(r), i) <==> Chosen(Homes(r), i, id) {
      UsedAfterMember({}, Homes(r), i, id);
    }
  }

  /** Unless a single healthy node is left, no two stolen tasks land on the same node. */
  lemma {:induction false} StealSpreads(e: Engine, cps: Checkpoints, healthy: seq<Node>, ts: seq<Task>, i: nat, j: nat)
    requires i < j < |ts| && |healthy| != 1
    ensures var r := StealAll(e, cps, healthy, {}, ts);
            r[i].state == Running && r[j].state == Running ==> r[i].node != r[j].node
  {
    StealAllFacts(e, cps, healthy, ts, i);
    StealAllFacts(e, cps, healthy, ts, j);
  }

  /** No orphan is lost while an unused healthy node could take it. */
  lemma {:induction false} StealIsComplete(e: Engine, cps: Checkpoints, healthy: seq<Node>, ts: seq<Task>, i: nat,
                                           n: Node)
    requires i < |ts| && n in healthy && Acceptable(e, ts[i], n)
    ensures var r := StealAll(e, cps, healthy, {}, ts);
            r[i].state == Running || (|healthy| != 1 && Chosen(Homes(r), i, n.id))
  {
    StealAllFacts(e, cps, healthy, ts, i);
  }

  // ---- the same in the task table ----

  /** An orphan before index `i` has taken the node. */
  ghost predicate TakenBefore(tasks: seq<Task>, r: seq<Task>, dead: set<NodeId>, i: nat, id: NodeId)
    requires |r| == |tasks| && i <= |tasks|
  {
    exists j :: 0 <= j < i && IsOrphan(tasks[j], dead) && r[j].node == Some(id)
  }

  lemma {:induction false} TakenBeforeTail(tasks: seq<Task>, r: seq<Task>, dead: set<NodeId>, i: nat, id: NodeId)
    requires |r| == |tasks| && 0 < i <= |tasks|
    ensures TakenBefore(tasks, r, dead, i, id) <==>
      (IsOrphan(tasks[0], dead) && r[0].node == Some(id)) || TakenBefore(tasks[1..], r[1..], dead, i - 1, id)
  {
    if TakenBefore(tasks[1..], r[1..], dead, i - 1, id) {
      var j :| 0 <= j < i - 1 && IsOrphan(tasks[1..][j], dead) && r[1..][j].node == Some(id);
      assert IsOrphan(tasks[j + 1], dead);
    }
    if TakenBefore(tasks, r, dead, i, id) && !(IsOrphan(tasks[0], dead) && r[0].node == Some(id)) {
      var j :| 0 <= j < i && IsOrphan(tasks[j], dead) && r[j].node == Some(id);
      assert IsOrphan(tasks[1..][j - 1], dead) && r[1..][j - 1].node == Some(id);
    }
  }

  /** What stealing has made of the orphan at index `i`, given the nodes used at the outset. */
  ghost predicate OrphanMoved(e: Engine, cps: Checkpoints, healthy: seq<Node>, dead: set<NodeId>, used: set<NodeId>,
                        tasks: seq<Task>, r: seq<Task>, i: nat)
    requires |r| == |tasks| && i < |tasks|
  {
    && Resumed(cps, tasks[i], r[i])
    && (r[i].node.Some? <==> r[i].state == Running) && (r[i].node.None? <==> r[i].state == Pending)
    && (r[i].node.Some? ==>
          && (exists n :: n in healthy && n.id == r[i].node.value && Acceptable(e, tasks[i], n))
          && (|healthy| != 1 ==>
                r[i].node.value !in used && !TakenBefore(tasks, r, dead, i, r[i].node.value)))
    && (r[i].node.None? ==> forall n :: n in healthy && Acceptable(e, tasks[i], n) ==>
          |healthy| != 1 && (n.id in used || TakenBefore(tasks, r, dead, i, n.id)))
  }

  lemma {:induction false} OrphanMovedTail(e: Engine, cps: Checkpoints, healthy: seq<Node>, dead: set<NodeId>,
                                     used: set<NodeId>, used': set<NodeId>, tasks: seq<Task>, r: seq<Task>, i: nat)
    requires |r| == |tasks| && 0 < i < |tasks|
    requires used' == if IsOrphan(tasks[0], dead) then UsedWith(used, r[0].node) else used
    requires OrphanMoved(e, cps, healthy, dead, used', tasks[1..], r[1..], i - 1)
    ensures OrphanMoved(e, cps, healthy, dead, used, tasks, r, i)
  {
    assert tasks[1..][i - 1] == tasks[i] && r[1..][i - 1] == r[i];
    forall id
      ensures id in used || TakenBefore(tasks, r, dead, i, id) <==>
              id in used' || TakenBefore(tasks[1..], r[1..], dead, i - 1, id)
    {
      TakenBeforeTail(tasks, r, dead, i, id);
    }
  }

  /** Each orphan of the table is moved, with the nodes that earlier ones took out of reach. */
  lemma {:induction false} StealTableMoves(e: Engine, cps: Checkpoints, healthy: seq<Node>, dead: set<NodeId>,
                                           used: set<NodeId>, tasks: seq<Task>, i: nat)
    requires i < |tasks| && IsOrphan(tasks[i], dead)
    ensures OrphanMoved(e, cps, healthy, dead, used, tasks, StealTable(e, cps, healthy, dead, used, tasks), i)
    decreases |tasks|
  {
    var r := StealTable(e, cps, healthy, dead, used, tasks);
    if i == 0 {
      StealOneFacts(e, cps, healthy, used, tasks[0]);
      assert r[0] == StealOne(e, cps, healthy, used, tasks[0]);
    } else {
      var used' := if IsOrphan(tasks[0], dead) then UsedWith(used, r[0].node) else used;
      assert r[1..] == StealTable(e, cps, healthy, dead, used', tasks[1..]);
      StealTableMoves(e, cps, healthy, dead, used', tasks[1..], i - 1);
      OrphanMovedTail(e, cps, healthy, dead, used, used', tasks, r, i);
    }
  }
}
