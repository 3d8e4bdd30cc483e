/**
 * Deaths that nobody is told about: `handle_node_death` reads every registered node through `get_state`, which
 * stores DEAD for a node that is overdue, so the next evaluation finds no change to report.
 */
module SilentDeaths {
  import opened Models
  import opened Placement
  import opened Health
  import opened Stealing
  import opened NodeDeath

  /** The node counts as dead from now on, by its mark or by timeout, but its stored state does not say so yet. */
  ghost predicate Overdue(s: Driver, id: NodeId) {
    && id in s.tracker.last
    && StateOf(s.tracker, id) != Dead
    && Evaluate(s.tracker, id, s.now).1 == Dead
  }

  lemma {:induction false} OverdueExactly(s: Driver, id: NodeId)
    requires id in s.tracker.last
    ensures Overdue(s, id) <==>
      && StateOf(s.tracker, id) != Dead
      && (id in s.tracker.explicitDead ||
          s.now - s.tracker.last[id] >= s.tracker.interval * s.tracker.deadAfter as real)
  {
    if id !in s.tracker.explicitDead {
      EvaluateExactly(s.tracker, id, s.now);
    }
  }

  /** The stored state says dead, and an evaluation would say so again. */
  ghost predicate KnownDead(s: Driver, id: NodeId) {
    StateOf(s.tracker, id) == Dead && Evaluate(s.tracker, id, s.now).1 == Dead
  }

  lemma {:induction false} MarkedOther(s: Driver, d: NodeId, e: NodeId)
    requires d != e
    ensures var m := Mark(s, d);
            && StateOf(m.tracker, e) == StateOf(s.tracker, e)
            && Evaluate(m.tracker, e, m.now).1 == Evaluate(s.tracker, e, s.now).1
            && (e in m.tracker.last <==> e in s.tracker.last)
            && (e in m.tracker.explicitDead <==> e in s.tracker.explicitDead)
            && (Registered(m.nodes, e) <==> Registered(s.nodes, e))
  {
    var m := Mark(s, d);
    if Registered(s.nodes, e) {
      var i :| 0 <= i < |s.nodes| && s.nodes[i].id == e;
      assert m.nodes[i] in m.nodes;
    }
    if Registered(m.nodes, e) {
      var i :| 0 <= i < |m.nodes| && m.nodes[i].id == e;
      assert s.nodes[i] in s.nodes;
    }
  }

  /**
   * From `s` to `r` the death of `d` has been handled; this is what it did to the node `e`: if there was an
   * orphan and `e` is registered, `e` was evaluated.
   */
  ghost predicate HandledBeside(s: Driver, r: Driver, d: NodeId, e: NodeId) {
    && r.now == s.now
    && (e in r.tracker.last <==> e in s.tracker.last)
    && Evaluate(r.tracker, e, r.now).1 == Evaluate(s.tracker, e, s.now).1
    && (Registered(r.nodes, e) <==> Registered(s.nodes, e))
    && StateOf(r.tracker, e) ==
         (if HasOrphan(s.tasks, {d}) && Registered(s.nodes, e) && (e in s.tracker.last || e in s.tracker.explicitDead)
          then Evaluate(s.tracker, e, s.now).1 else StateOf(s.tracker, e))
    && (!HasOrphan(s.tasks, {d}) ==> r.tasks == s.tasks)
  }

  lemma {:induction false} ReassignOther(s: Driver, d: NodeId, e: NodeId, refused: set<TaskId>)
    ensures HandledBeside(s, Reassign(s, d, refused), d, e)
    ensures Reassign(s, d, refused).changes == s.changes
  {
    LiveNodesStore(s.tracker, s.nodes, s.now, e);
    SameAnswer(s.tracker, Reassign(s, d, refused).tracker, e, s.now);
  }

  lemma {:induction false} HandledOther(s: Driver, d: NodeId, e: NodeId, refused: set<TaskId>)
    requires d != e
    ensures HandledBeside(s, HandleNodeDeath(s, d, refused).0, d, e)
  {
    ReentryIsOnce(s, d, refused);
    MarkedOther(s, d, e);
    var was := StateOf(s.tracker, d);
    var marked := Mark(s, d);
    var told := if was == Dead then marked else marked.(changes := marked.changes + [Change(d, was, Dead)]);
    ReassignOther(told, d, e, refused);
  }

  /** Evaluating a node that is already known to be dead reports nothing and moves no task. */
  lemma {:induction false} KnownDeadIsQuiet(s: Driver, e: NodeId, refused: set<TaskId>)
    requires KnownDead(s, e)
    ensures var r := ReportNode(s, e, refused);
            r.changes == s.changes && r.tasks == s.tasks && KnownDead(r, e)
  {
  }

  /** The tasks assigned to `e` are as they were. */
  ghost predicate Kept(s: Driver, r: Driver, e: NodeId) {
    |r.tasks| == |s.tasks| && forall i :: 0 <= i < |s.tasks| && s.tasks[i].node == Some(e) ==> r.tasks[i] == s.tasks[i]
  }

  /**
   * The second of two deaths is lost: while the death of `d` is handled and `d` has an orphan, another registered
   * node that is overdue becomes DEAD without a notice; its tasks stay where they are, and evaluating it
   * afterwards reports nothing.
   */
  lemma {:induction false} SecondDeathIsSilent(s: Driver, d: NodeId, e: NodeId, refused: set<TaskId>,
                                               later: set<TaskId>)
    requires d != e && StateOf(s.tracker, d) != Dead && HasOrphan(s.tasks, {d})
    requires Registered(s.nodes, e) && Overdue(s, e)
    ensures var r := HandleNodeDeath(s, d, refused).0;
            && StateOf(r.tracker, e) == Dead
            && r.changes == s.changes + [Change(d, StateOf(s.tracker, d), Dead)]
            && Kept(s, r, e)
            && ReportNode(r, e, later).changes == r.changes
            && ReportNode(r, e, later).tasks == r.tasks
  {
    var r := HandleNodeDeath(s, d, refused).0;
    HandledOther(s, d, e, refused);
    DeathClearsNode(s, d, refused);
    KnownDeadIsQuiet(r, e, later);
  }

  // ---- a whole pass of evaluate_all ----

  /** How often `id` was reported dead. */
  function Deaths(changes: seq<Change>, id: NodeId): nat {
    if |changes| == 0 then 0
    else
      var last := changes[|changes| - 1];
      Deaths(changes[..|changes| - 1], id) + (if last.node == id && last.state == Dead then 1 else 0)
  }

  lemma {:induction false} DeathsSnoc(changes: seq<Change>, c: Change, id: NodeId)
    ensures Deaths(changes + [c], id) == Deaths(changes, id) + (if c.node == id && c.state == Dead then 1 else 0)
  {
    assert (changes + [c])[..|changes|] == changes;
  }

  /** One step of the pass at node `d`, seen from another node. */
  lemma {:induction false} ReportOther(s: Driver, d: NodeId, e: NodeId, refused: set<TaskId>)
    requires d != e && d in s.tracker.last
    ensures var r := ReportNode(s, d, refused);
            && Deaths(r.changes, e) == Deaths(s.changes, e) && Kept(s, r, e)
            && (Overdue(s, d) ==> HandledBeside(s, r, d, e))
            && (!Overdue(s, d) ==>
                  && StateOf(r.tracker, e) == StateOf(s.tracker, e) && SameHistory(s.tracker, r.tracker)
                  && r.nodes == s.nodes && r.now == s.now && r.tasks == s.tasks)
  {
    var was := StateOf(s.tracker, d);
    var (tracker, state) := Evaluate(s.tracker, d, s.now);
    EvaluateOnlyStates(s.tracker, d, s.now);
    if was != state {
      var noted := s.(tracker := tracker, changes := s.changes + [Change(d, was, state)]);
      DeathsSnoc(s.changes, Change(d, was, state), e);
      if state == Dead {
        HandledOther(noted, d, e, refused);
        DeathClearsNode(noted, d, refused);
        SameAnswer(s.tracker, tracker, e, s.now);
        assert noted.changes + [] == noted.changes;
      }
    }
  }

  /** The node itself: its death is reported when its turn comes, if it is still overdue by then. */
  lemma {:induction false} ReportSelf(s: Driver, d: NodeId, refused: set<TaskId>)
    requires Overdue(s, d)
    ensures var r := ReportNode(s, d, refused);
            Deaths(r.changes, d) == Deaths(s.changes, d) + 1 && KnownDead(r, d)
  {
    var was := StateOf(s.tracker, d);
    var (tracker, state) := Evaluate(s.tracker, d, s.now);
    var noted := s.(tracker := tracker, changes := s.changes + [Change(d, was, Dead)]);
    DeathsSnoc(s.changes, Change(d, was, Dead), d);
    ReentryIsOnce(noted, d, refused);
    DeathClearsNode(noted, d, refused);
    ReassignOther(Mark(noted, d), d, d, refused);
    assert noted.changes + [] == noted.changes;
  }

  lemma {:induction false} PassStaysQuiet(s: Driver, ids: seq<NodeId>, e: NodeId, refused: NodeId -> set<TaskId>)
    requires KnownDead(s, e) && forall i :: 0 <= i < |ids| ==> ids[i] in s.tracker.last
    ensures Deaths(ReportAll(s, ids, refused).changes, e) == Deaths(s.changes, e)
    ensures Kept(s, ReportAll(s, ids, refused), e)
    decreases |ids|
  {
    if |ids| > 0 {
      var r := ReportNode(s, ids[0], refused(ids[0]));
      HandledHistory(s, ids[0], refused(ids[0]));
      if ids[0] == e {
        KnownDeadIsQuiet(s, e, refused(e));
      } else {
        ReportOther(s, ids[0], e, refused(ids[0]));
        if !Overdue(s, ids[0]) {
          SameAnswer(s.tracker, r.tracker, e, s.now);
        }
      }
      PassStaysQuiet(r, ids[1..], e, refused);
    }
  }

  /** An overdue node with an orphan is evaluated before the registered node `ids[j]`. */
  ghost predicate Silenced(s: Driver, ids: seq<NodeId>, j: nat)
    requires j < |ids|
  {
    Registered(s.nodes, ids[j]) && exists i :: 0 <= i < j && Overdue(s, ids[i]) && HasOrphan(s.tasks, {ids[i]})
  }

  /** Stepping past a node that is not overdue, or has no orphan, leaves what silences the later ones. */
  lemma {:induction false} SilencedTail(s: Driver, r: Driver, ids: seq<NodeId>, j: nat)
    requires 0 < j < |ids|
    requires Registered(r.nodes, ids[j]) <==> Registered(s.nodes, ids[j])
    requires !(Overdue(s, ids[0]) && HasOrphan(s.tasks, {ids[0]})) && r.tasks == s.tasks
    requires forall i :: 0 < i < |ids| ==> (Overdue(r, ids[i]) <==> Overdue(s, ids[i]))
    ensures Silenced(s, ids, j) <==> Silenced(r, ids[1..], j - 1)
  {
    if Silenced(s, ids, j) {
      var i :| 0 <= i < j && Overdue(s, ids[i]) && HasOrphan(s.tasks, {ids[i]});
      assert ids[1..][i - 1] == ids[i];
    }
    if Silenced(r, ids[1..], j - 1) {
      var i :| 0 <= i < j - 1 && Overdue(r, ids[1..][i]) && HasOrphan(r.tasks, {ids[1..][i]});
      assert Overdue(s, ids[i + 1]);
    }
  }

  lemma {:induction false} OverdueCarries(s: Driver, r: Driver, d: NodeId, e: NodeId)
    requires HandledBeside(s, r, d, e) && !(HasOrphan(s.tasks, {d}) && Registered(s.nodes, e))
    ensures Overdue(r, e) <==> Overdue(s, e)
  {
  }

  lemma {:induction false} StepBefore(s: Driver, ids: seq<NodeId>, j: nat, refused: set<TaskId>)
    requires Distinct(ids) && 0 < j < |ids| && ids[0] in s.tracker.last
    requires !(Overdue(s, ids[0]) && HasOrphan(s.tasks, {ids[0]}))
    ensures var r := ReportNode(s, ids[0], refused);
            && (Silenced(s, ids, j) <==> Silenced(r, ids[1..], j - 1))
            && (Overdue(r, ids[j]) <==> Overdue(s, ids[j]))
  {
    var r := ReportNode(s, ids[0], refused);
    forall i | 0 < i < |ids| ensures Overdue(r, ids[i]) <==> Overdue(s, ids[i]) {
      assert ids[0] != ids[i];
      ReportOther(s, ids[0], ids[i], refused);
      if Overdue(s, ids[0]) {
        OverdueCarries(s, r, ids[0], ids[i]);
      } else {
        SameAnswer(s.tracker, r.tracker, ids[i], s.now);
      }
    }
    assert ids[0] != ids[j];
    ReportOther(s, ids[0], ids[j], refused);
    SilencedTail(s, r, ids, j);
  }

  lemma {:induction false} HandledMakesKnown(s: Driver, r: Driver, d: NodeId, e: NodeId)
    requires HandledBeside(s, r, d, e) && HasOrphan(s.tasks, {d}) && Registered(s.nodes, e) && Overdue(s, e)
    ensures KnownDead(r, e)
  {
  }

  lemma {:induction false} KeptOn(s: Driver, r: Driver, q: Driver, e: NodeId)
    requires Kept(s, r, e) && Kept(r, q, e)
    ensures Kept(s, q, e)
  {
  }

  /** The head of the pass silences `e`: all the rest of the pass is quiet about it. */
  lemma {:induction false} HeadSilences(s: Driver, ids: seq<NodeId>, e: NodeId, refused: NodeId -> set<TaskId>)
    requires |ids| > 0 && e != ids[0] && forall i :: 0 <= i < |ids| ==> ids[i] in s.tracker.last
    requires Overdue(s, ids[0]) && HasOrphan(s.tasks, {ids[0]}) && Registered(s.nodes, e) && Overdue(s, e)
    ensures Deaths(ReportAll(s, ids, refused).changes, e) == Deaths(s.changes, e)
    ensures Kept(s, ReportAll(s, ids, refused), e)
  {
    var d := ids[0];
    var r := ReportNode(s, d, refused(d));
    HandledHistory(s, d, refused(d));
    ReportOther(s, d, e, refused(d));
    HandledMakesKnown(s, r, d, e);
    PassStaysQuiet(r, ids[1..], e, refused);
    KeptOn(s, r, ReportAll(s, ids, refused), e);
  }

  /** The head of the pass has no effect on whether the node at `j` is silenced. */
  lemma {:induction false} HeadPasses(s: Driver, ids: seq<NodeId>, j: nat, refused: set<TaskId>)
    requires Distinct(ids) && 0 < j < |ids| && ids[0] in s.tracker.last && Overdue(s, ids[j])
    requires !(Overdue(s, ids[0]) && HasOrphan(s.tasks, {ids[0]}) && Registered(s.nodes, ids[j]))
    ensures var r := ReportNode(s, ids[0], refused);
            && Overdue(r, ids[j]) && (Silenced(r, ids[1..], j - 1) <==> Silenced(s, ids, j))
            && Deaths(r.changes, ids[j]) == Deaths(s.changes, ids[j]) && Kept(s, r, ids[j])
  {
    var d, e := ids[0], ids[j];
    assert d != e;
    ReportOther(s, d, e, refused);
    if Overdue(s, d) && HasOrphan(s.tasks, {d}) {
      OverdueCarries(s, ReportNode(s, d, refused), d, e);
    } else {
      StepBefore(s, ids, j, refused);
    }
  }

  /**
   * In one pass an overdue node is reported dead exactly once, unless it is silenced: then never, and its tasks
   * stay on it.
   */
  lemma {:induction false} PassReports(s: Driver, ids: seq<NodeId>, j: nat, refused: NodeId -> set<TaskId>)
    requires Distinct(ids) && j < |ids| && Overdue(s, ids[j])
    requires forall i :: 0 <= i < |ids| ==> ids[i] in s.tracker.last
    ensures Deaths(ReportAll(s, ids, refused).changes, ids[j]) ==
      Deaths(s.changes, ids[j]) + (if Silenced(s, ids, j) then 0 else 1)
    ensures Silenced(s, ids, j) ==> Kept(s, ReportAll(s, ids, refused), ids[j])
    decreases |ids|
  {
    var d, e := ids[0], ids[j];
    var r := ReportNode(s, d, refused(d));
    HandledHistory(s, d, refused(d));
    if j == 0 {
      ReportSelf(s, d, refused(d));
      PassStaysQuiet(r, ids[1..], d, refused);
    } else if Overdue(s, d) && HasOrphan(s.tasks, {d}) && Registered(s.nodes, e) {
      HeadSilences(s, ids, e, refused);
      assert Silenced(s, ids, j);
    } else {
      HeadPasses(s, ids, j, refused(d));
      PassReports(r, ids[1..], j - 1, refused);
      if Silenced(s, ids, j) {
        KeptOn(s, r, ReportAll(s, ids, refused), e);
      }
    }
  }

  /** A pass reports every overdue node if and only if none of them is silenced. */
  lemma {:induction false} PassReportsAllExactly(s: Driver, refused: NodeId -> set<TaskId>)
    requires Distinct(s.tracker.known)
    requires forall i :: 0 <= i < |s.tracker.known| ==> s.tracker.known[i] in s.tracker.last
    ensures var ids := s.tracker.known;
            var r := ReportAll(s, ids, refused);
            (forall j :: 0 <= j < |ids| && Overdue(s, ids[j]) ==>
               Deaths(r.changes, ids[j]) == Deaths(s.changes, ids[j]) + 1)
            <==> (forall j :: 0 <= j < |ids| && Overdue(s, ids[j]) ==> !Silenced(s, ids, j))
  {
    var ids := s.tracker.known;
    forall j | 0 <= j < |ids| && Overdue(s, ids[j]) {
      PassReports(s, ids, j, refused);
    }
  }

  // ---- an input on which a death is lost ----

  function Box(id: NodeId, gb: real): Node {
    Node(id, id, Resources(8, 8.0, gb, gb, 0, 0.0, None, 1.0, None, 0.0, false),
         Healthy, 0.8, 0.9, CpuPool, false, "default")
  }

  function Job(id: TaskId, node: NodeId): Task {
    Task(id, Requirements(1.0, 1.0, 0, 0.0, None, 0.0, None), None, true, 30.0, 1.0, Running, Some(node), 0.0, map[])
  }

  const SILENT := Tracker(2.0, 3, 5, ["a", "b"], map["a" := 0.0, "b" := 0.0], map["a" := Healthy, "b" := Healthy], {})

  /** Nodes "a" and "b" last reported ten seconds ago and run a task each. */
  function BothSilent(engine: Engine): Driver {
    Driver(engine, 10.0, [Box("a", 16.0), Box("b", 16.0)], {}, SILENT, [Job("t1", "a"), Job("t2", "b")], map[], [])
  }

  lemma {:induction false} BothOverdue(engine: Engine)
    ensures var s := BothSilent(engine);
            && Overdue(s, "a") && Overdue(s, "b") && Distinct(SILENT.known)
            && !Silenced(s, SILENT.known, 0) && Silenced(s, SILENT.known, 1)
  {
    var s := BothSilent(engine);
    OverdueExactly(s, "a");
    OverdueExactly(s, "b");
    assert s.nodes[1].id == "b" && s.nodes[1] in s.nodes;
    assert IsOrphan(s.tasks[0], {"a"}) && SILENT.known[0] == "a";
  }

  lemma {:induction false} LostSecond(s: Driver, ids: seq<NodeId>, refused: NodeId -> set<TaskId>)
    requires Distinct(ids) && |ids| == 2 && forall i :: 0 <= i < |ids| ==> ids[i] in s.tracker.last
    requires s.changes == [] && Overdue(s, ids[0]) && !Silenced(s, ids, 0) && Overdue(s, ids[1]) && Silenced(s, ids, 1)
    ensures var r := ReportAll(s, ids, refused);
            Deaths(r.changes, ids[0]) == 1 && Deaths(r.changes, ids[1]) == 0 && Kept(s, r, ids[1])
  {
    PassReports(s, ids, 0, refused);
    PassReports(s, ids, 1, refused);
  }

  /** One pass reports "a" and never "b", whose task stays where it is. */
  lemma {:induction false} LostDeath(engine: Engine, refused: NodeId -> set<TaskId>)
    ensures var s := BothSilent(engine);
            var r := ReportAll(s, SILENT.known, refused);
            Deaths(r.changes, "a") == 1 && Deaths(r.changes, "b") == 0 && Kept(s, r, "b")
  {
    BothOverdue(engine);
    LostSecond(BothSilent(engine), SILENT.known, refused);
  }
}
