/** How many orphans one call of `steal` can reassign, and exactly when it reassigns all of them. */
module StealingTheory {
  import opened Sorting
  import opened Models
  import opened Placement
  import opened Checkpointing
  import opened NodeChoices
  import opened Stealing

  function CountRunning(ts: seq<Task>): nat {
    if |ts| == 0 then 0 else (if ts[0].state == Running then 1 else 0) + CountRunning(ts[1..])
  }

  lemma {:induction false} CountRunningFull(ts: seq<Task>)
    ensures CountRunning(ts) <= |ts|
    ensures CountRunning(ts) == |ts| <==> forall i :: 0 <= i < |ts| ==> ts[i].state == Running
  {
    if |ts| > 0 {
      CountRunningFull(ts[1..]);
      assert forall i :: 0 < i < |ts| ==> ts[i] == ts[1..][i - 1];
    }
  }

  lemma {:induction false} RunningHaveHomes(ts: seq<Task>)
    requires forall i :: 0 <= i < |ts| ==> (ts[i].node.Some? <==> ts[i].state == Running)
    ensures CountRunning(ts) == PlacedCount(Homes(ts))
  {
    if |ts| > 0 {
      RunningHaveHomes(ts[1..]);
      assert Homes(ts)[1..] == Homes(ts[1..]);
    }
  }

  /**
   * Unless a single healthy node is left, each healthy node takes at most one orphan per call, however much room it
   * has.
   */
  lemma {:induction false} AtMostOneEach(e: Engine, cps: Checkpoints, healthy: seq<Node>, ts: seq<Task>)
    requires |healthy| != 1
    ensures CountRunning(StealAll(e, cps, healthy, {}, ts)) <= |healthy|
  {
    var r := StealAll(e, cps, healthy, {}, ts);
    var cs := Homes(r);
    forall i | 0 <= i < |r|
      ensures r[i].node.Some? <==> r[i].state == Running
      ensures cs[i].Some? ==> cs[i].value in NodeIds(healthy)
    {
      StealAllFacts(e, cps, healthy, ts, i);
      if cs[i].Some? {
        NodeIdsMember(healthy, cs[i].value);
      }
    }
    forall i, j | 0 <= i < j < |cs| && cs[i].Some? ensures cs[i] != cs[j] {
      StealSpreads(e, cps, healthy, ts, i, j);
    }
    RunningHaveHomes(r);
    PlacedAtMostNodes(cs, healthy);
  }

  function AcceptableNodes(e: Engine, t: Task, nodes: seq<Node>): seq<Node> {
    Filter(nodes, (n: Node) => Acceptable(e, t, n))
  }

  /** The orphan at place `i` runs if more than `i` healthy nodes are acceptable for it. */
  lemma {:induction false} RunsWithEnoughNodes(e: Engine, cps: Checkpoints, healthy: seq<Node>, ts: seq<Task>, i: nat)
    requires UniqueNodes(healthy) && i < |ts| && i < |AcceptableNodes(e, ts[i], healthy)|
    ensures StealAll(e, cps, healthy, {}, ts)[i].state == Running
  {
    var r := StealAll(e, cps, healthy, {}, ts);
    StealAllFacts(e, cps, healthy, ts, i);
    if r[i].state != Running {
      var nodes, earlier := AcceptableNodes(e, ts[i], healthy), Homes(r)[..i];
      FilterUnique(healthy, (n: Node) => Acceptable(e, ts[i], n));
      forall n | n in nodes ensures Chosen(earlier, i, n.id) {
        var l :| 0 <= l < i && Homes(r)[l] == Some(n.id);
        assert earlier[l] == Some(n.id);
      }
      AllNodesChosen(earlier, nodes);
      assert false;
    }
  }

  /**
   * With two or more healthy nodes that all suit every orphan, all orphans are reassigned if and only if they are
   * no more than the nodes.
   */
  lemma {:induction false} AllReassignedExactly(e: Engine, cps: Checkpoints, healthy: seq<Node>, ts: seq<Task>)
    requires UniqueNodes(healthy) && |healthy| > 1
    requires forall i, n :: 0 <= i < |ts| && n in healthy ==> Acceptable(e, ts[i], n)
    ensures (forall i :: 0 <= i < |ts| ==> StealAll(e, cps, healthy, {}, ts)[i].state == Running) <==> |ts| <= |healthy|
  {
    var r := StealAll(e, cps, healthy, {}, ts);
    AtMostOneEach(e, cps, healthy, ts);
    CountRunningFull(r);
    if |ts| <= |healthy| {
      forall i | 0 <= i < |ts| ensures r[i].state == Running {
        FilterAll(healthy, (n: Node) => Acceptable(e, ts[i], n));
        RunsWithEnoughNodes(e, cps, healthy, ts, i);
      }
    }
  }

  /** A single healthy node takes exactly the orphans it is acceptable for, without limit. */
  lemma {:induction false} SingleNodeTakesAll(e: Engine, cps: Checkpoints, n: Node, ts: seq<Task>, i: nat)
    requires i < |ts|
    ensures StealAll(e, cps, [n], {}, ts)[i].state == Running <==> Acceptable(e, ts[i], n)
  {
    StealAllFacts(e, cps, [n], ts, i);
  }

  function CpuOf(t: Task): real { t.req.cpu }

  function RamOf(t: Task): real { t.req.ram }

  /** With more orphans than healthy nodes, two or more, some orphan is left pending. */
  lemma {:induction false} SomeoneWaits(e: Engine, cps: Checkpoints, healthy: seq<Node>, ts: seq<Task>) returns (i: nat)
    requires 1 < |healthy| < |ts|
    ensures i < |ts| && StealAll(e, cps, healthy, {}, ts)[i].state == Pending
  {
    var r := StealAll(e, cps, healthy, {}, ts);
    AtMostOneEach(e, cps, healthy, ts);
    CountRunningFull(r);
    i :| 0 <= i < |ts| && r[i].state != Running;
    StealAllFacts(e, cps, healthy, ts, i);
  }

  // ---- all orphans, whatever nodes suit them ----

  /** The healthy nodes that a round may still use. */
  function Free(healthy: seq<Node>, used: set<NodeId>): seq<Node> {
    Filter(healthy, (n: Node) => n.id !in used || |healthy| == 1)
  }

  /** One after the other, each orphan finds a best acceptable node among those that are still free. */
  ghost predicate Served(e: Engine, healthy: seq<Node>, used: set<NodeId>, ts: seq<Task>)
    decreases |ts|
  {
    |ts| == 0
    || exists n :: IsBest(e, ts[0], Free(healthy, used), n) && Served(e, healthy, used + {n.id}, ts[1..])
  }

  /** A round takes a best acceptable node among the free ones, if any of them is acceptable. */
  lemma {:induction false} StealOneBest(e: Engine, cps: Checkpoints, healthy: seq<Node>, used: set<NodeId>, t: Task)
    returns (best: Option<Node>)
    ensures var r := StealOne(e, cps, healthy, used, t);
            r.node == (if best.Some? then Some(best.value.id) else None) && (r.state == Running <==> best.Some?)
    ensures best.Some? ==> IsBest(e, t, Free(healthy, used), best.value)
    ensures best.None? ==> forall n :: n in Free(healthy, used) ==> !Acceptable(e, t, n)
  {
    var moving, free := Restored(cps, t).(state := Migrating), Free(healthy, used);
    PlaceIsMaximal(e, moving, free);
    assert forall n :: Acceptable(e, moving, n) <==> Acceptable(e, t, n);
    if Place(e, moving, free).Some? {
      var n :| IsBest(e, moving, free, n) && Place(e, moving, free).value.node == n.id;
      best := Some(n);
    } else {
      best := None;
    }
  }

  lemma {:induction false} SameBest(e: Engine, t: Task, nodes: seq<Node>, a: Node, b: Node)
    requires IsBest(e, t, nodes, a) && IsBest(e, t, nodes, b)
    ensures a.id == b.id
  {
    LexTotal(a.id, b.id);
  }

  lemma {:induction false} ServedRest(e: Engine, healthy: seq<Node>, used: set<NodeId>, ts: seq<Task>, best: Node)
    requires |ts| > 0 && IsBest(e, ts[0], Free(healthy, used), best)
    ensures Served(e, healthy, used, ts) <==> Served(e, healthy, used + {best.id}, ts[1..])
  {
    if Served(e, healthy, used, ts) {
      var n :| IsBest(e, ts[0], Free(healthy, used), n) && Served(e, healthy, used + {n.id}, ts[1..]);
      SameBest(e, ts[0], Free(healthy, used), n, best);
    }
  }

  ghost predicate AllRun(ts: seq<Task>) {
    forall i :: 0 <= i < |ts| ==> ts[i].state == Running
  }

  lemma {:induction false} AllRunTail(ts: seq<Task>)
    requires |ts| > 0
    ensures AllRun(ts) <==> ts[0].state == Running && AllRun(ts[1..])
  {
    assert forall i :: 0 < i < |ts| ==> ts[i] == ts[1..][i - 1];
  }

  lemma {:induction false} StealAllTail(e: Engine, cps: Checkpoints, healthy: seq<Node>, used: set<NodeId>,
                                        ts: seq<Task>)
    requires |ts| > 0
    ensures var r, t := StealAll(e, cps, healthy, used, ts), StealOne(e, cps, healthy, used, ts[0]);
            r[0] == t && r[1..] == StealAll(e, cps, healthy, UsedWith(used, t.node), ts[1..])
  {
  }

  /**
   * For all orphans and nodes: every orphan is reassigned if and only if each in turn finds an acceptable node, the
   * earlier ones having taken their best ones.
   */
  lemma {:induction false} ServedExactly(e: Engine, cps: Checkpoints, healthy: seq<Node>, used: set<NodeId>,
                                         ts: seq<Task>)
    ensures AllRun(StealAll(e, cps, healthy, used, ts)) <==> Served(e, healthy, used, ts)
    decreases |ts|
  {
    if |ts| > 0 {
      StealAllTail(e, cps, healthy, used, ts);
      AllRunTail(StealAll(e, cps, healthy, used, ts));
      var best := StealOneBest(e, cps, healthy, used, ts[0]);
      if best.Some? {
        ServedExactly(e, cps, healthy, used + {best.value.id}, ts[1..]);
        ServedRest(e, healthy, used, ts, best.value);
      }
    }
  }

  // ---- at least half of what any assignment could do ----

  lemma {:induction false} CountRunningSnoc(ts: seq<Task>, t: Task)
    ensures CountRunning(ts + [t]) == CountRunning(ts) + (if t.state == Running then 1 else 0)
  {
    if |ts| == 0 {
      assert [t][1..] == [];
    } else {
      CountRunningSnoc(ts[1..], t);
      assert (ts + [t])[1..] == ts[1..] + [t];
    }
  }

  lemma {:induction false} RunningIndices(ts: seq<Task>, ks: set<nat>)
    requires forall k :: k in ks ==> k < |ts| && ts[k].state == Running
    ensures |ks| <= CountRunning(ts)
  {
    if |ts| == 0 {
      assert ks == {};
    } else {
      var k := |ts| - 1;
      RunningIndices(ts[..k], ks - {k});
      CountRunningSnoc(ts[..k], ts[k]);
      assert ts == ts[..k] + [ts[k]];
    }
  }

  /** A one-to-one choice of nodes, for some of the orphans, each acceptable for its orphan. */
  ghost predicate Assignment(e: Engine, healthy: seq<Node>, ts: seq<Task>, m: map<nat, NodeId>) {
    && (forall i :: i in m ==> i < |ts| && exists n :: n in healthy && n.id == m[i] && Acceptable(e, ts[i], n))
    && (forall i, j :: i in m && j in m && i != j ==> m[i] != m[j])
  }

  lemma {:induction false} InjectiveImage(m: map<nat, NodeId>, ks: set<nat>, ids: set<NodeId>)
    requires ks <= m.Keys && forall k :: k in ks ==> m[k] in ids
    requires forall i, j :: i in m && j in m && i != j ==> m[i] != m[j]
    ensures |ks| <= |ids|
  {
    if ks != {} {
      var k :| k in ks;
      InjectiveImage(m, ks - {k}, ids - {m[k]});
    }
  }

  /** A one-to-one choice for things that either run or whose chosen node is among `cs`. */
  lemma {:induction false} HalfAtLeast(m: map<nat, NodeId>, run: set<nat>, ids: set<NodeId>)
    requires forall i :: i in m && i !in run ==> m[i] in ids
    requires forall i, j :: i in m && j in m && i != j ==> m[i] != m[j]
    ensures |m| <= |run| + |ids|
  {
    var ran, left := m.Keys * run, m.Keys - run;
    InjectiveImage(m, left, ids);
    SubsetSize(ran, run);
    assert m.Keys == ran + left && |m| == |m.Keys|;
  }

  lemma {:induction false} RunningAndHomes(e: Engine, cps: Checkpoints, healthy: seq<Node>, ts: seq<Task>)
    ensures var r := StealAll(e, cps, healthy, {}, ts);
            |PlacedIds(Homes(r))| <= CountRunning(r)
  {
    var r := StealAll(e, cps, healthy, {}, ts);
    forall i | 0 <= i < |r| ensures r[i].node.Some? <==> r[i].state == Running {
      StealAllFacts(e, cps, healthy, ts, i);
    }
    RunningHaveHomes(r);
    PlacedIdsFacts(Homes(r));
  }

  /** An assigned orphan that does not run has lost its assigned node to another. */
  lemma {:induction false} LostToAnother(e: Engine, cps: Checkpoints, healthy: seq<Node>, ts: seq<Task>,
                                         m: map<nat, NodeId>, i: nat)
    requires Assignment(e, healthy, ts, m) && i in m
    ensures var r := StealAll(e, cps, healthy, {}, ts);
            i < |r| && (r[i].state == Running || m[i] in PlacedIds(Homes(r)))
  {
    var r := StealAll(e, cps, healthy, {}, ts);
    var cs := Homes(r);
    var n :| n in healthy && n.id == m[i] && Acceptable(e, ts[i], n);
    StealIsComplete(e, cps, healthy, ts, i, n);
    PlacedIdsFacts(cs);
    assert Chosen(cs, i, n.id) ==> Chosen(cs, |cs|, n.id);
  }

  /**
   * One call reassigns at least half as many orphans as any one-to-one assignment to acceptable healthy nodes could.
   */
  lemma {:induction false} HalfOfAnyAssignment(e: Engine, cps: Checkpoints, healthy: seq<Node>, ts: seq<Task>,
                                               m: map<nat, NodeId>)
    requires Assignment(e, healthy, ts, m)
    ensures |m| <= 2 * CountRunning(StealAll(e, cps, healthy, {}, ts))
  {
    var r := StealAll(e, cps, healthy, {}, ts);
    forall i | i in m ensures i < |r| && (r[i].state == Running || m[i] in PlacedIds(Homes(r))) {
      LostToAnother(e, cps, healthy, ts, m, i);
    }
    RunningAndHomes(e, cps, healthy, ts);
    var run := set i | i in m && r[i].state == Running;
    RunningIndices(r, run);
    HalfAtLeast(m, run, PlacedIds(Homes(r)));
  }

  // ---- an orphan that is not reassigned although every node has room ----

  /** The default weights and pool settings. */
  const ENGINE := Engine(Weights(0.35, 0.25, 0.15, 0.15, 0.1), Router(18, 8, 60.0), 12)

  const SMALL := Requirements(1.0, 1.0, 0, 0.0, None, 0.0, None)

  function RoomyNode(id: NodeId): Node {
    Node(id, id, Resources(8, 8.0, 16.0, 16.0, 0, 0.0, None, 1.0, None, 0.0, false),
         Healthy, 0.8, 0.9, CpuPool, false, "default")
  }

  function SmallTask(id: TaskId): Task {
    Task(id, SMALL, None, true, 30.0, 1.0, Running, Some("dead"), 0.0, map[])
  }

  lemma {:induction false} SmallTaskFits(task: TaskId, node: NodeId)
    ensures Acceptable(ENGINE, SmallTask(task), RoomyNode(node))
  {
    var n := RoomyNode(node);
    assert PartsOf(n, SMALL) == Parts(1.0, 1.0, 1.0, 0.8, 1.0);
    assert Weighted(ENGINE.weights, PartsOf(n, SMALL)) == 0.97;
    BetterNodeScoresNoLess(ENGINE.weights, n, n, SMALL);
  }

  const NODES := [RoomyNode("n1"), RoomyNode("n2")]

  const ORPHANS := [SmallTask("t1"), SmallTask("t2"), SmallTask("t3")]

  lemma {:induction false} NodesDiffer()
    ensures |NODES| == 2 && UniqueNodes(NODES)
    ensures forall n :: n in NODES ==> n == RoomyNode(n.id)
  {
  }

  lemma {:induction false} OrphansAreSmall()
    ensures |ORPHANS| == 3
    ensures forall k :: 0 <= k < |ORPHANS| ==> ORPHANS[k] == SmallTask(ORPHANS[k].id)
  {
  }

  lemma {:induction false} SmallTasksSum(ts: seq<Task>)
    requires forall k :: 0 <= k < |ts| ==> ts[k].req == SMALL
    ensures SumBy(CpuOf, ts) == |ts| as real && SumBy(RamOf, ts) == |ts| as real
  {
    if |ts| > 0 {
      SmallTasksSum(ts[1..]);
    }
  }

  /** Each node suits every orphan and has room for all three together. */
  lemma {:induction false} EveryNodeHasRoom()
    ensures forall k, n :: 0 <= k < |ORPHANS| && n in NODES ==> Acceptable(ENGINE, ORPHANS[k], n)
    ensures forall n :: n in NODES ==>
      SumBy(CpuOf, ORPHANS) <= n.resources.cpuFree && SumBy(RamOf, ORPHANS) <= n.resources.ramFree
  {
    NodesDiffer();
    OrphansAreSmall();
    SmallTasksSum(ORPHANS);
    forall k, n | 0 <= k < |ORPHANS| && n in NODES ensures Acceptable(ENGINE, ORPHANS[k], n) {
      SmallTaskFits(ORPHANS[k].id, n.id);
    }
  }

  /**
   * Three small orphans and two healthy nodes, each with room for all three (`EveryNodeHasRoom`): one is left
   * pending.
   */
  lemma {:induction false} OrphanLeftPending(cps: Checkpoints) returns (i: nat)
    ensures |NODES| == 2 && |ORPHANS| == 3
    ensures forall k :: 0 <= k < |ORPHANS| ==> IsOrphan(ORPHANS[k], {"dead"})
    ensures i < |ORPHANS| && StealAll(ENGINE, cps, NODES, {}, ORPHANS)[i].state == Pending
  {
    NodesDiffer();
    OrphansAreSmall();
    i := SomeoneWaits(ENGINE, cps, NODES, ORPHANS);
  }

  // ---- an orphan that is not reassigned because an earlier one took its only node ----

  const LARGE := SMALL.(cpu := 4.0)

  function LargeTask(id: TaskId): Task { SmallTask(id).(req := LARGE) }

  /** Two of the eight cores are free. */
  function BusyNode(id: NodeId): Node {
    RoomyNode(id).(resources := RoomyNode(id).resources.(cpuFree := 2.0))
  }

  lemma {:induction false} RoomyScore(id: NodeId, req: Requirements)
    requires req == SMALL || req == LARGE
    ensures Score(ENGINE.weights, RoomyNode(id), req) > 0.96
  {
    var n := RoomyNode(id);
    assert PartsOf(n, req) == Parts(1.0, 1.0, 1.0, 0.8, 1.0);
    assert Weighted(ENGINE.weights, PartsOf(n, req)) == 0.97;
    BetterNodeScoresNoLess(ENGINE.weights, n, n, req);
  }

  lemma {:induction false} BusyScore(id: NodeId)
    ensures 0.0 < Score(ENGINE.weights, BusyNode(id), SMALL) < 0.96
  {
    var n := BusyNode(id);
    assert PartsOf(n, SMALL) == Parts(0.25, 1.0, 1.0, 0.8, 1.0);
    assert Weighted(ENGINE.weights, PartsOf(n, SMALL)) == 0.7075;
    BetterNodeScoresNoLess(ENGINE.weights, n, n, SMALL);
  }

  const PAIR := [RoomyNode("n1"), BusyNode("n2")]

  lemma {:induction false} PairMembers(n: Node)
    ensures n in PAIR <==> n == RoomyNode("n1") || n == BusyNode("n2")
    ensures |PAIR| == 2 && PAIR[0] == RoomyNode("n1") && PAIR[1] == BusyNode("n2")
  {
  }

  /** The small orphan suits both nodes, the large one only the first. */
  lemma {:induction false} PairFits(t: TaskId)
    ensures |PAIR| == 2
    ensures Acceptable(ENGINE, SmallTask(t), PAIR[0]) && Acceptable(ENGINE, SmallTask(t), PAIR[1])
    ensures Acceptable(ENGINE, LargeTask(t), PAIR[0]) && !Acceptable(ENGINE, LargeTask(t), PAIR[1])
  {
    RoomyScore("n1", SMALL);
    RoomyScore("n1", LARGE);
    BusyScore("n2");
  }

  /** Of the two nodes the roomy one scores higher for the small orphan. */
  lemma {:induction false} RoomyIsBest(t: TaskId, free: seq<Node>, best: Node)
    requires RoomyNode("n1") in free && IsBest(ENGINE, SmallTask(t), free, best)
    ensures best != BusyNode("n2")
  {
    PairFits(t);
    PairMembers(best);
    RoomyScore("n1", SMALL);
    BusyScore("n2");
    assert SmallTask(t).req == SMALL;
  }

  lemma {:induction false} AllFree(healthy: seq<Node>, n: Node)
    ensures n in Free(healthy, {}) <==> n in healthy
  {
  }

  lemma {:induction false} SmallTakesRoomy(cps: Checkpoints, t: TaskId)
    ensures StealOne(ENGINE, cps, PAIR, {}, SmallTask(t)).node == Some("n1")
  {
    var roomy, free := RoomyNode("n1"), Free(PAIR, {});
    var best := StealOneBest(ENGINE, cps, PAIR, {}, SmallTask(t));
    PairMembers(roomy);
    AllFree(PAIR, roomy);
    PairFits(t);
    assert best.Some?;
    RoomyIsBest(t, free, best.value);
    AllFree(PAIR, best.value);
    PairMembers(best.value);
  }

  /** Once the first node is taken, the large orphan, second in the list, has none. */
  lemma {:induction false} LargeWaits(cps: Checkpoints, ts: seq<Task>)
    requires |ts| == 2 && ts[1] == LargeTask("t2")
    requires StealAll(ENGINE, cps, PAIR, {}, ts)[0].node == Some("n1")
    ensures StealAll(ENGINE, cps, PAIR, {}, ts)[1].state == Pending
  {
    var r := StealAll(ENGINE, cps, PAIR, {}, ts);
    StealAllFacts(ENGINE, cps, PAIR, ts, 1);
    assert Homes(r)[0] == Some("n1");
    forall n | n in PAIR && Acceptable(ENGINE, ts[1], n) ensures n.id == "n1" {
      PairMembers(n);
      PairFits("t2");
    }
    assert Chosen(Homes(r), 1, "n1");
    assert r[1].node.None?;
  }

  /** The small orphan on "n2" and the large one on "n1" would both run. */
  lemma {:induction false} BothCouldRun(ts: seq<Task>)
    requires |ts| == 2 && ts[0] == SmallTask("t1") && ts[1] == LargeTask("t2")
    ensures Assignment(ENGINE, PAIR, ts, map[0 := "n2", 1 := "n1"])
  {
    PairFits("t1");
    PairFits("t2");
    PairMembers(PAIR[0]);
    PairMembers(PAIR[1]);
    assert PAIR[0] in PAIR && PAIR[0].id == "n1" && PAIR[1] in PAIR && PAIR[1].id == "n2";
  }

  lemma {:induction false} OneRuns(r: seq<Task>)
    requires |r| == 2 && r[0].state == Running && r[1].state != Running
    ensures CountRunning(r) == 1
  {
    CountRunningFull(r[1..]);
    assert r[1..][0] == r[1];
  }

  lemma {:induction false} TwoKeys(m: map<nat, NodeId>)
    requires m.Keys == {0, 1}
    ensures |m| == 2
  {
    assert |m| == |m.Keys|;
  }

  lemma {:induction false} OneOfTwoRuns(cps: Checkpoints, ts: seq<Task>)
    requires |ts| == 2 && ts[0] == SmallTask("t1") && ts[1] == LargeTask("t2")
    ensures var r := StealAll(ENGINE, cps, PAIR, {}, ts);
            r[0].node == Some("n1") && r[1].state == Pending && CountRunning(r) == 1
  {
    SmallTakesRoomy(cps, "t1");
    StealAllTail(ENGINE, cps, PAIR, {}, ts);
    LargeWaits(cps, ts);
    StealAllFacts(ENGINE, cps, PAIR, ts, 0);
    OneRuns(StealAll(ENGINE, cps, PAIR, {}, ts));
  }

  /**
   * The small orphan, first in the list, takes "n1", and the large one is left pending: half of what an assignment
   * could do, so the bound of `HalfOfAnyAssignment` is met.
   */
  lemma {:induction false} OnlyNodeTaken(cps: Checkpoints, ts: seq<Task>, m: map<nat, NodeId>)
    requires ts == [SmallTask("t1"), LargeTask("t2")] && m == map[0 := "n2", 1 := "n1"]
    ensures IsOrphan(ts[0], {"dead"}) && IsOrphan(ts[1], {"dead"})
    ensures var r := StealAll(ENGINE, cps, PAIR, {}, ts);
            r[0].node == Some("n1") && r[1].state == Pending && |m| == 2 * CountRunning(r)
    ensures Assignment(ENGINE, PAIR, ts, m)
  {
    TwoKeys(m);
    OneOfTwoRuns(cps, ts);
    BothCouldRun(ts);
  }
}
