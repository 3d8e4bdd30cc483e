/** mesh/recovery/replication.py: replicas of a job go to different nodes. */
module Replication {
  import opened Sorting
  import opened Models
  import opened Placement
  import opened NodeChoices

  function Unused(nodes: seq<Node>, used: set<NodeId>): seq<Node> {
    Filter(nodes, (n: Node) => n.id !in used)
  }

  /** The node chosen for one replica: among the unused nodes, or among all of them when none is left. */
  function ChooseNode(e: Engine, nodes: seq<Node>, used: set<NodeId>, t: Task): Option<NodeId> {
    var free := Unused(nodes, used);
    match Place(e, t, if |free| == 0 then nodes else free)
    case Some(p) => Some(p.node)
    case None => None
  }

  function Choices(e: Engine, nodes: seq<Node>, used: set<NodeId>, ts: seq<Task>): (r: seq<Option<NodeId>>)
    ensures |r| == |ts|
    decreases |ts|
  {
    if |ts| == 0 then []
    else
      var c := ChooseNode(e, nodes, used, ts[0]);
      [c] + Choices(e, nodes, UsedWith(used, c), ts[1..])
  }

  /** Each replica's node is chosen knowing the nodes of all earlier ones. */
  lemma {:induction false} ChoicesAt(e: Engine, nodes: seq<Node>, used: set<NodeId>, ts: seq<Task>, i: nat)
    requires i < |ts|
    ensures var cs := Choices(e, nodes, used, ts);
            cs[i] == ChooseNode(e, nodes, UsedAfter(used, cs, i), ts[i])
    decreases |ts|
  {
    if i > 0 {
      var cs := Choices(e, nodes, used, ts);
      ChoicesAt(e, nodes, UsedWith(used, cs[0]), ts[1..], i - 1);
      assert cs[1..] == Choices(e, nodes, UsedWith(used, cs[0]), ts[1..]);
      UsedAfterTail(used, cs, i);
    }
  }

  /** A replica after its choice: a failed one becomes pending but keeps the node it had. */
  function Assigned(t: Task, choice: Option<NodeId>): Task {
    if choice.Some? then t.(node := choice, state := Running) else t.(state := Pending)
  }

  /** One round of the loop: of all the replicas only the `i`-th changes. */
  method AssignReplica(e: Engine, specs: seq<TaskSpec>, i: nat, nodes: seq<Node>, used: set<NodeId>,
                       ghost before: seq<Task>, ghost goal: seq<Option<NodeId>>)
    returns (choice: Option<NodeId>)
    requires Distinct(specs) && i < |specs| == |before| && specs[i].View() == before[i]
    requires goal == Choices(e, nodes, {}, before) && used == UsedAfter({}, goal, i)
    modifies specs[i]
    ensures choice == goal[i]
    ensures Views(specs) == old(Views(specs))[i := Assigned(before[i], choice)]
  {
    ChoicesAt(e, nodes, {}, before, i);
    var available := Unused(nodes, used);
    if |available| == 0 {
      available := nodes;
    }
    var placement := Place(e, specs[i].View(), available);
    if placement.Some? {
      specs[i].node := Some(placement.value.node);
      specs[i].state := Running;
      choice := Some(placement.value.node);
    } else {
      specs[i].state := Pending;
      choice := None;
    }
  }

  method AssignToDifferentNodes(e: Engine, specs: seq<TaskSpec>, nodes: seq<Node>)
    returns (results: seq<(TaskSpec, Option<NodeId>)>)
    requires Distinct(specs)
    modifies specs
    ensures |results| == |specs|
    ensures var choices := Choices(e, nodes, {}, old(Views(specs)));
            forall i :: 0 <= i < |specs| ==>
              && results[i] == (specs[i], choices[i])
              && specs[i].View() == Assigned(old(Views(specs))[i], choices[i])
  {
    results := [];
    var used: set<NodeId> := {};
    ghost var before := Views(specs);
    ghost var goal := Choices(e, nodes, {}, before);
    for i := 0 to |specs|
      invariant |results| == i
      invariant used == UsedAfter({}, goal, i)
      invariant forall j :: 0 <= j < i ==>
        results[j] == (specs[j], goal[j]) && Views(specs)[j] == Assigned(before[j], goal[j])
      invariant forall j :: i <= j < |specs| ==> Views(specs)[j] == before[j]
    {
      var choice := AssignReplica(e, specs, i, nodes, used, before, goal);
      if choice.Some? {
        used := used + {choice.value};
      }
      results := results + [(specs[i], choice)];
    }
  }

  // ---- what a replica gets ----

  /** The node may be offered to a replica: nobody before has taken it, or every node has been taken. */
  ghost predicate Offered(nodes: seq<Node>, used: set<NodeId>, n: Node) {
    n in nodes && (n.id !in used || forall m :: m in nodes ==> m.id in used)
  }

  /** A best acceptable node of those offered is chosen, and none only if none of them is acceptable. */
  lemma {:induction false} ChoosesBest(e: Engine, nodes: seq<Node>, used: set<NodeId>, t: Task)
    ensures var c := ChooseNode(e, nodes, used, t);
            && (c.None? <==> forall n :: Offered(nodes, used, n) ==> !Acceptable(e, t, n))
            && (c.Some? ==> exists n :: && Offered(nodes, used, n) && Acceptable(e, t, n) && c == Some(n.id)
                                        && NoneBetter(e, nodes, used, t, n))
  {
    var free := Unused(nodes, used);
    var offered := if |free| == 0 then nodes else free;
    PlaceIsMaximal(e, t, offered);
    OfferedExactly(nodes, used);
    if Place(e, t, offered).Some? {
      var n :| IsBest(e, t, offered, n) && Place(e, t, offered).value.node == n.id;
      assert NoneBetter(e, nodes, used, t, n);
    }
  }

  ghost predicate NoneBetter(e: Engine, nodes: seq<Node>, used: set<NodeId>, t: Task, n: Node) {
    forall m :: Offered(nodes, used, m) && Acceptable(e, t, m) ==>
      var sn, sm := Score(e.weights, n, t.req), Score(e.weights, m, t.req);
      sn > sm || (sn == sm && LexLeq(n.id, m.id))
  }

  lemma {:induction false} OfferedExactly(nodes: seq<Node>, used: set<NodeId>)
    ensures var free := Unused(nodes, used);
            forall n :: n in (if |free| == 0 then nodes else free) <==> Offered(nodes, used, n)
  {
    var free := Unused(nodes, used);
    assert forall n :: n in free <==> n in nodes && n.id !in used;
    if |free| > 0 {
      assert free[0] in free;
    } else {
      assert forall n :: n in nodes ==> n !in free;
    }
  }

  /**
   * Each replica ends running on a best of the nodes that no replica before it took, or of all nodes once all are
   * taken, and pending on its old node only if none of these is acceptable. Nothing else of it changes.
   */
  lemma {:induction false} ReplicaGetsBest(e: Engine, nodes: seq<Node>, ts: seq<Task>, i: nat)
    returns (used: set<NodeId>)
    requires i < |ts|
    ensures var cs := Choices(e, nodes, {}, ts);
            var r := Assigned(ts[i], cs[i]);
            && (forall id :: id in used <==> Chosen(cs, i, id))
            && (cs[i].None? ==>
                  && r == ts[i].(state := Pending)
                  && forall n :: Offered(nodes, used, n) ==> !Acceptable(e, ts[i], n))
            && (cs[i].Some? ==>
                  && r == ts[i].(state := Running, node := cs[i])
                  && exists n :: && Offered(nodes, used, n) && Acceptable(e, ts[i], n) && cs[i] == Some(n.id)
                                 && NoneBetter(e, nodes, used, ts[i], n))
  {
    var cs := Choices(e, nodes, {}, ts);
    used := UsedAfter({}, cs, i);
    ChoicesAt(e, nodes, {}, ts, i);
    ChoosesBest(e, nodes, used, ts[i]);
    forall id ensures id in used <==> Chosen(cs, i, id) {
      UsedAfterMember({}, cs, i, id);
    }
  }

  // ---- anti-affinity ----

  lemma {:induction false} ChooseNodeAvoids(e: Engine, nodes: seq<Node>, used: set<NodeId>, t: Task)
    requires ChooseNode(e, nodes, used, t).Some?
    ensures ChooseNode(e, nodes, used, t).value in used ==> forall n :: n in nodes ==> n.id in used
  {
    var free := Unused(nodes, used);
    var offered := if |free| == 0 then nodes else free;
    PlaceIsMaximal(e, t, offered);
    var n :| IsBest(e, t, offered, n) && Place(e, t, offered).value.node == n.id;
    if n.id in used {
      assert n in free ==> n.id !in used;
      assert |free| == 0;
      assert forall m :: m in nodes && m.id !in used ==> m in free;
    }
  }

  lemma {:induction false} ReuseOnlyWhenFull(e: Engine, nodes: seq<Node>, used: set<NodeId>, ts: seq<Task>, j: nat,
                                             m: NodeId)
    requires j < |ts| && Choices(e, nodes, used, ts)[j].Some? && m in NodeIds(nodes)
    ensures var cs := Choices(e, nodes, used, ts);
            cs[j].value in used || Chosen(cs, j, cs[j].value) ==> m in used || Chosen(cs, j, m)
    decreases |ts|
  {
    var cs := Choices(e, nodes, used, ts);
    if j == 0 {
      ChooseNodeAvoids(e, nodes, used, ts[0]);
      NodeIdsMember(nodes, m);
    } else {
      var used' := UsedWith(used, cs[0]);
      var rest := Choices(e, nodes, used', ts[1..]);
      assert rest == cs[1..];
      ReuseOnlyWhenFull(e, nodes, used', ts[1..], j - 1, m);
      ChosenTail(cs, j, m);
      ChosenTail(cs, j, cs[j].value);
    }
  }

  /** Two replicas share a node only after every node has been used. */
  lemma {:induction false} ShareOnlyWhenFull(e: Engine, nodes: seq<Node>, ts: seq<Task>, i: nat, j: nat)
    requires i < j < |ts|
    ensures var cs := Choices(e, nodes, {}, ts);
            cs[i].Some? && cs[i] == cs[j] ==> forall m :: m in NodeIds(nodes) ==> Chosen(cs, j, m)
  {
    var cs := Choices(e, nodes, {}, ts);
    if cs[i].Some? && cs[i] == cs[j] {
      assert Chosen(cs, j, cs[j].value);
      forall m | m in NodeIds(nodes) ensures Chosen(cs, j, m) {
        ReuseOnlyWhenFull(e, nodes, {}, ts, j, m);
      }
    }
  }

  /** If no more replicas are placed than there are nodes, their nodes are pairwise distinct. */
  lemma {:induction false} ReplicasOnDistinctNodes(e: Engine, nodes: seq<Node>, ts: seq<Task>, i: nat, j: nat)
    requires UniqueNodes(nodes) && PlacedCount(Choices(e, nodes, {}, ts)) <= |nodes|
    requires i < j < |ts|
    ensures var cs := Choices(e, nodes, {}, ts);
            cs[i].Some? && cs[j].Some? ==> cs[i] != cs[j]
  {
    var cs := Choices(e, nodes, {}, ts);
    if cs[i].Some? && cs[i] == cs[j] {
      PlacedCountSplit(cs, j);
      assert PlacedCount(cs[j..]) >= 1;
      var earlier := cs[..j];
      ShareOnlyWhenFull(e, nodes, ts, i, j);
      forall n | n in nodes ensures Chosen(earlier, j, n.id) {
        NodeIdsMember(nodes, n.id);
        var l :| 0 <= l < j && cs[l] == Some(n.id);
        assert earlier[l] == Some(n.id);
      }
      AllNodesChosen(earlier, nodes);
    }
  }
}
