/** mesh/scheduler/placement.py: `place_all`, which fills nodes against a usage map. */
module Filling {
  import opened Sorting
  import opened Models
  import opened Placement

  /** CPU cores and RAM charged to each node so far. */
  type Usage = map<NodeId, (real, real)>

  function Used(usage: Usage, id: NodeId): (real, real) {
    if id in usage then usage[id] else (0.0, 0.0)
  }

  function Residual(n: Node, used: (real, real)): Node {
    n.(resources := n.resources.(
         cpuFree := Max(0.0, n.resources.cpuFree - used.0),
         ramFree := Max(0.0, n.resources.ramFree - used.1)))
  }

  function ApplyUsage(nodes: seq<Node>, usage: Usage): (r: seq<Node>)
    ensures |r| == |nodes| && forall i :: 0 <= i < |r| ==> r[i] == Residual(nodes[i], Used(usage, nodes[i].id))
  {
    if |nodes| == 0 then []
    else [Residual(nodes[0], Used(usage, nodes[0].id))] + ApplyUsage(nodes[1..], usage)
  }

  function Charge(usage: Usage, id: NodeId, req: Requirements): Usage {
    var u := Used(usage, id);
    usage[id := (u.0 + req.cpu, u.1 + req.ram)]
  }

  /** The decision taken for each task, in order, with residuals recomputed from the usage map. */
  function Decisions(e: Engine, tasks: seq<Task>, nodes: seq<Node>, usage: Usage): (r: seq<Option<Placed>>)
    ensures |r| == |tasks|
  {
    if |tasks| == 0 then []
    else
      var p := Place(e, tasks[0], ApplyUsage(nodes, usage));
      var next := if p.Some? then Charge(usage, p.value.node, tasks[0].req) else usage;
      [p] + Decisions(e, tasks[1..], nodes, next)
  }

  function Made(ps: seq<Option<Placed>>): seq<Placed> {
    if |ps| == 0 then []
    else (if ps[0].Some? then [ps[0].value] else []) + Made(ps[1..])
  }

  lemma {:induction false} MadeSnoc(ps: seq<Option<Placed>>, p: Option<Placed>)
    ensures Made(ps + [p]) == Made(ps) + (if p.Some? then [p.value] else [])
  {
    if |ps| == 0 {
      assert [p][1..] == [];
    } else {
      MadeSnoc(ps[1..], p);
      assert (ps + [p])[1..] == ps[1..] + [p];
    }
  }

  lemma {:induction false} DecisionStep(e: Engine, tasks: seq<Task>, i: nat, nodes: seq<Node>, usage: Usage,
                                        ds: seq<Option<Placed>>)
    requires i < |tasks| == |ds| && Decisions(e, tasks[i..], nodes, usage) == ds[i..]
    ensures ds[i] == Place(e, tasks[i], ApplyUsage(nodes, usage))
    ensures Decisions(e, tasks[i + 1..], nodes,
                      if ds[i].Some? then Charge(usage, ds[i].value.node, tasks[i].req) else usage) == ds[i + 1..]
  {
    assert tasks[i..][1..] == tasks[i + 1..] && ds[i..][1..] == ds[i + 1..];
  }

  method PlaceAll(e: Engine, tasks: seq<Task>, nodes: seq<Node>) returns (placements: seq<Placed>)
    ensures placements == Made(Decisions(e, tasks, nodes, map[]))
  {
    placements := [];
    var usage: Usage := map[];
    ghost var ds := Decisions(e, tasks, nodes, map[]);
    assert tasks[0..] == tasks && ds[0..] == ds && ds[..0] == [];
    for i := 0 to |tasks|
      invariant Decisions(e, tasks[i..], nodes, usage) == ds[i..]
      invariant placements == Made(ds[..i])
    {
      DecisionStep(e, tasks, i, nodes, usage, ds);
      MadeSnoc(ds[..i], ds[i]);
      assert ds[..i + 1] == ds[..i] + [ds[i]];
      var placement := Place(e, tasks[i], ApplyUsage(nodes, usage));
      if placement.Some? {
        placements := placements + [placement.value];
        usage := Charge(usage, placement.value.node, tasks[i].req);
      }
    }
    assert ds[..|ds|] == ds;
  }

  // ---- capacity is conserved ----

  /** CPU and RAM of the tasks that the decisions put on node `id`. */
  function Demand(tasks: seq<Task>, ps: seq<Option<Placed>>, id: NodeId): (real, real)
    requires |tasks| == |ps|
  {
    if |tasks| == 0 then (0.0, 0.0)
    else
      var rest := Demand(tasks[1..], ps[1..], id);
      if ps[0].Some? && ps[0].value.node == id
      then (tasks[0].req.cpu + rest.0, tasks[0].req.ram + rest.1)
      else rest
  }

  /** A placed task fits in what the usage map leaves on its node. */
  lemma {:induction false} PlacedFits(e: Engine, t: Task, nodes: seq<Node>, usage: Usage, i: nat)
    requires UniqueNodes(nodes) && i < |nodes|
    requires Place(e, t, ApplyUsage(nodes, usage)).Some?
    requires Place(e, t, ApplyUsage(nodes, usage)).value.node == nodes[i].id
    ensures t.req.cpu <= Max(0.0, nodes[i].resources.cpuFree - Used(usage, nodes[i].id).0)
    ensures t.req.ram <= Max(0.0, nodes[i].resources.ramFree - Used(usage, nodes[i].id).1)
  {
    var k := PlacePicks(e, t, ApplyUsage(nodes, usage));
    assert nodes[k].id == nodes[i].id;
    assert k == i;
  }

  lemma {:induction false} PlacePicks(e: Engine, t: Task, nodes: seq<Node>) returns (k: nat)
    requires Place(e, t, nodes).Some?
    ensures k < |nodes| && Place(e, t, nodes).value.node == nodes[k].id
    ensures t.req.cpu <= nodes[k].resources.cpuFree && t.req.ram <= nodes[k].resources.ramFree
  {
    PlaceIsMaximal(e, t, nodes);
    var n :| IsBest(e, t, nodes, n) && Place(e, t, nodes).value.node == n.id;
    k :| 0 <= k < |nodes| && nodes[k] == n;
  }

  lemma {:induction false} DecisionsFit(e: Engine, tasks: seq<Task>, nodes: seq<Node>, usage: Usage, i: nat)
    requires UniqueNodes(nodes) && i < |nodes|
    requires Used(usage, nodes[i].id).0 <= Max(0.0, nodes[i].resources.cpuFree)
    requires Used(usage, nodes[i].id).1 <= Max(0.0, nodes[i].resources.ramFree)
    ensures var d := Demand(tasks, Decisions(e, tasks, nodes, usage), nodes[i].id);
            && Used(usage, nodes[i].id).0 + d.0 <= Max(0.0, nodes[i].resources.cpuFree)
            && Used(usage, nodes[i].id).1 + d.1 <= Max(0.0, nodes[i].resources.ramFree)
  {
    if |tasks| == 0 {
    } else {
      var p := Place(e, tasks[0], ApplyUsage(nodes, usage));
      var next := if p.Some? then Charge(usage, p.value.node, tasks[0].req) else usage;
      if p.Some? && p.value.node == nodes[i].id {
        PlacedFits(e, tasks[0], nodes, usage, i);
      }
      DecisionsFit(e, tasks[1..], nodes, next, i);
    }
  }

  /** Per node, the placed tasks never need more CPU or RAM than the node had free. */
  lemma {:induction false} CapacityConserved(e: Engine, tasks: seq<Task>, nodes: seq<Node>, i: nat)
    requires UniqueNodes(nodes) && i < |nodes|
    ensures var d := Demand(tasks, Decisions(e, tasks, nodes, map[]), nodes[i].id);
            && d.0 <= Max(0.0, nodes[i].resources.cpuFree)
            && d.1 <= Max(0.0, nodes[i].resources.ramFree)
  {
    DecisionsFit(e, tasks, nodes, map[], i);
  }

  // ---- the usage map refines a plain running residual ----

  function Less(n: Node, req: Requirements): Node {
    n.(resources := n.resources.(
         cpuFree := n.resources.cpuFree - req.cpu,
         ramFree := n.resources.ramFree - req.ram))
  }

  function Take(nodes: seq<Node>, id: NodeId, req: Requirements): (r: seq<Node>)
    ensures |r| == |nodes|
    ensures forall i :: 0 <= i < |r| ==> r[i] == if nodes[i].id == id then Less(nodes[i], req) else nodes[i]
  {
    if |nodes| == 0 then []
    else [if nodes[0].id == id then Less(nodes[0], req) else nodes[0]] + Take(nodes[1..], id, req)
  }

  function Clamped(nodes: seq<Node>): (r: seq<Node>)
    ensures |r| == |nodes| && forall i :: 0 <= i < |r| ==> r[i] == Residual(nodes[i], (0.0, 0.0))
  {
    if |nodes| == 0 then [] else [Residual(nodes[0], (0.0, 0.0))] + Clamped(nodes[1..])
  }

  /** The simple form: no usage map, each placement is subtracted from its node at once. */
  function RunningResiduals(e: Engine, tasks: seq<Task>, nodes: seq<Node>): seq<Option<Placed>> {
    if |tasks| == 0 then []
    else
      var p := Place(e, tasks[0], Clamped(nodes));
      [p] + RunningResiduals(e, tasks[1..], if p.Some? then Take(nodes, p.value.node, tasks[0].req) else nodes)
  }

  /** What a usage map leaves of the nodes, below zero if need be. */
  function Left(nodes: seq<Node>, usage: Usage): (r: seq<Node>)
    ensures |r| == |nodes|
    ensures forall i :: 0 <= i < |r| ==> r[i] == LessBy(nodes[i], Used(usage, nodes[i].id))
  {
    if |nodes| == 0 then [] else [LessBy(nodes[0], Used(usage, nodes[0].id))] + Left(nodes[1..], usage)
  }

  function LessBy(n: Node, used: (real, real)): Node {
    n.(resources := n.resources.(
         cpuFree := n.resources.cpuFree - used.0,
         ramFree := n.resources.ramFree - used.1))
  }

  lemma {:induction false} ChargeLeft(n: Node, usage: Usage, id: NodeId, req: Requirements)
    ensures var left := LessBy(n, Used(usage, n.id));
            LessBy(n, Used(Charge(usage, id, req), n.id)) == if n.id == id then Less(left, req) else left
  {
  }

  lemma {:induction false} ChargeIsTake(nodes: seq<Node>, usage: Usage, id: NodeId, req: Requirements)
    ensures Left(nodes, Charge(usage, id, req)) == Take(Left(nodes, usage), id, req)
  {
    forall i | 0 <= i < |nodes| {
      ChargeLeft(nodes[i], usage, id, req);
    }
  }

  lemma {:induction false} LeftIsApplied(nodes: seq<Node>, usage: Usage)
    ensures Clamped(Left(nodes, usage)) == ApplyUsage(nodes, usage)
  {
  }

  /** From any usage map on, recomputing residuals from the map decides like subtracting each placement at once. */
  lemma {:induction false} UsageMapRefines(e: Engine, tasks: seq<Task>, nodes: seq<Node>, usage: Usage)
    ensures Decisions(e, tasks, nodes, usage) == RunningResiduals(e, tasks, Left(nodes, usage))
  {
    if |tasks| == 0 {
    } else {
      LeftIsApplied(nodes, usage);
      var p := Place(e, tasks[0], ApplyUsage(nodes, usage));
      if p.Some? {
        ChargeIsTake(nodes, usage, p.value.node, tasks[0].req);
        UsageMapRefines(e, tasks[1..], nodes, Charge(usage, p.value.node, tasks[0].req));
      } else {
        UsageMapRefines(e, tasks[1..], nodes, usage);
      }
    }
  }

  /** `place_all` refines the simple form, whatever the nodes report and the tasks ask for. */
  lemma {:induction false} PlaceAllRefines(e: Engine, tasks: seq<Task>, nodes: seq<Node>)
    ensures Decisions(e, tasks, nodes, map[]) == RunningResiduals(e, tasks, nodes)
  {
    UsageMapRefines(e, tasks, nodes, map[]);
    NothingTaken(nodes);
  }

  lemma {:induction false} NothingTaken(nodes: seq<Node>)
    ensures Left(nodes, map[]) == nodes
  {
  }

  // ---- on nodes that report no negative amount the clamp never acts ----

  /** The same without the clamp. */
  function OneByOne(e: Engine, tasks: seq<Task>, nodes: seq<Node>): seq<Option<Placed>> {
    if |tasks| == 0 then []
    else
      var p := Place(e, tasks[0], nodes);
      [p] + OneByOne(e, tasks[1..], if p.Some? then Take(nodes, p.value.node, tasks[0].req) else nodes)
  }

  ghost predicate NonNegativeFree(nodes: seq<Node>) {
    forall i :: 0 <= i < |nodes| ==> nodes[i].resources.cpuFree >= 0.0 && nodes[i].resources.ramFree >= 0.0
  }

  ghost predicate WithinFree(nodes: seq<Node>, usage: Usage) {
    forall i :: 0 <= i < |nodes| ==>
      && Used(usage, nodes[i].id).0 <= nodes[i].resources.cpuFree
      && Used(usage, nodes[i].id).1 <= nodes[i].resources.ramFree
  }

  lemma {:induction false} ChargeAt(n: Node, usage: Usage, id: NodeId, req: Requirements)
    requires Used(usage, n.id).0 <= n.resources.cpuFree && Used(usage, n.id).1 <= n.resources.ramFree
    requires n.id == id ==>
      && Used(usage, id).0 + req.cpu <= n.resources.cpuFree
      && Used(usage, id).1 + req.ram <= n.resources.ramFree
    ensures var used, next := Used(usage, n.id), Used(Charge(usage, id, req), n.id);
            && next.0 <= n.resources.cpuFree && next.1 <= n.resources.ramFree
            && Residual(n, next) == if n.id == id then Less(Residual(n, used), req) else Residual(n, used)
  {
  }

  ghost predicate HasRoom(nodes: seq<Node>, usage: Usage, id: NodeId, req: Requirements) {
    forall i :: 0 <= i < |nodes| && nodes[i].id == id ==>
      && Used(usage, id).0 + req.cpu <= nodes[i].resources.cpuFree
      && Used(usage, id).1 + req.ram <= nodes[i].resources.ramFree
  }

  /** Charging a node that has room is taking from its residual. */
  lemma {:induction false} ChargeWithRoom(nodes: seq<Node>, usage: Usage, id: NodeId, req: Requirements)
    requires WithinFree(nodes, usage) && HasRoom(nodes, usage, id, req)
    ensures WithinFree(nodes, Charge(usage, id, req))
    ensures ApplyUsage(nodes, Charge(usage, id, req)) == Take(ApplyUsage(nodes, usage), id, req)
  {
    forall i | 0 <= i < |nodes| {
      ChargeAt(nodes[i], usage, id, req);
    }
  }

  lemma {:induction false} PlacementIsTake(e: Engine, t: Task, nodes: seq<Node>, usage: Usage, id: NodeId)
    requires UniqueNodes(nodes) && WithinFree(nodes, usage)
    requires Place(e, t, ApplyUsage(nodes, usage)).Some? && Place(e, t, ApplyUsage(nodes, usage)).value.node == id
    ensures WithinFree(nodes, Charge(usage, id, t.req))
    ensures ApplyUsage(nodes, Charge(usage, id, t.req)) == Take(ApplyUsage(nodes, usage), id, t.req)
  {
    assert HasRoom(nodes, usage, id, t.req) by {
      forall i | 0 <= i < |nodes| && nodes[i].id == id {
        PlacedFits(e, t, nodes, usage, i);
      }
    }
    ChargeWithRoom(nodes, usage, id, t.req);
  }

  lemma {:induction false} MapNeedsNoClamp(e: Engine, tasks: seq<Task>, nodes: seq<Node>, usage: Usage)
    requires UniqueNodes(nodes) && WithinFree(nodes, usage)
    ensures Decisions(e, tasks, nodes, usage) == OneByOne(e, tasks, ApplyUsage(nodes, usage))
  {
    if |tasks| == 0 {
    } else {
      var p := Place(e, tasks[0], ApplyUsage(nodes, usage));
      if p.Some? {
        PlacementIsTake(e, tasks[0], nodes, usage, p.value.node);
        MapNeedsNoClamp(e, tasks[1..], nodes, Charge(usage, p.value.node, tasks[0].req));
      } else {
        MapNeedsNoClamp(e, tasks[1..], nodes, usage);
      }
    }
  }

  /** With unique ids and nonnegative free amounts the simple form needs no clamp. */
  lemma {:induction false} PlaceAllNeedsNoClamp(e: Engine, tasks: seq<Task>, nodes: seq<Node>)
    requires UniqueNodes(nodes) && NonNegativeFree(nodes)
    ensures Decisions(e, tasks, nodes, map[]) == OneByOne(e, tasks, nodes)
  {
    NothingUsed(nodes);
    MapNeedsNoClamp(e, tasks, nodes, map[]);
  }

  lemma {:induction false} NothingUsed(nodes: seq<Node>)
    requires NonNegativeFree(nodes)
    ensures ApplyUsage(nodes, map[]) == nodes
  {
  }
}
