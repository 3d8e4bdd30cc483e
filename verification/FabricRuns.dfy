/** The fabric over whole runs of allocate and release: the ledger, and the pool of a fixed snapshot. */
module FabricRuns {
  import opened Sorting
  import opened Models
  import opened Fabric
  import opened FabricTheory

  function AllSegments(allocations: seq<Allocation>): seq<Segment> {
    if |allocations| == 0 then [] else allocations[0].segments + AllSegments(allocations[1..])
  }

  lemma {:induction false} AllSegmentsAppend(a: seq<Allocation>, b: seq<Allocation>)
    ensures AllSegments(a + b) == AllSegments(a) + AllSegments(b)
  {
    if |a| == 0 {
      assert a + b == b;
    } else {
      AllSegmentsAppend(a[1..], b);
      assert (a + b)[1..] == a[1..] + b;
      AppendAssociates(a[0].segments, AllSegments(a[1..]), AllSegments(b));
    }
  }

  /** Memory that live allocations take on node `id`. */
  function Live(allocations: seq<Allocation>, id: NodeId): real {
    OnNode(AllSegments(allocations), id)
  }

  ghost predicate WellFormed(a: Allocation) {
    Positive(a.segments) && SumBy(SizeOf, a.segments) == a.total
  }

  /** The ledger: what is reserved on a node is exactly what live allocations take there. */
  ghost predicate Ledger(s: State) {
    && (forall i :: 0 <= i < |s.allocations| ==> WellFormed(s.allocations[i]))
    && (forall id :: Held(s.reserved, id) == Live(s.allocations, id))
  }

  lemma {:induction false} ReserveAllHeld(reserved: Reserved, segs: seq<Segment>, id: NodeId)
    ensures Held(ReserveAll(reserved, segs), id) == Held(reserved, id) + OnNode(segs, id)
  {
    if |segs| == 0 {
    } else {
      var k := |segs| - 1;
      ReserveAllHeld(reserved, segs[..k], id);
      assert segs == segs[..k] + [segs[k]];
      OnNodeAppend(segs[..k], [segs[k]], id);
    }
  }

  /** `UnreserveAll` without its clamp at zero. */
  function SubtractAll(reserved: Reserved, segs: seq<Segment>): Reserved {
    if |segs| == 0 then reserved
    else
      var s := segs[|segs| - 1];
      var before := SubtractAll(reserved, segs[..|segs| - 1]);
      before[s.node := Held(before, s.node) - s.size]
  }

  lemma {:induction false} ClampNeverBites(reserved: Reserved, segs: seq<Segment>)
    requires Positive(segs) && forall id :: Held(reserved, id) >= OnNode(segs, id)
    ensures UnreserveAll(reserved, segs) == SubtractAll(reserved, segs)
    ensures forall id :: Held(UnreserveAll(reserved, segs), id) == Held(reserved, id) - OnNode(segs, id)
  {
    if |segs| == 0 {
    } else {
      var k := |segs| - 1;
      assert segs == segs[..k] + [segs[k]];
      forall id ensures OnNode(segs, id) == OnNode(segs[..k], id) + (if segs[k].node == id then segs[k].size else 0.0) {
        OnNodeAppend(segs[..k], [segs[k]], id);
      }
      ClampNeverBites(reserved, segs[..k]);
    }
  }

  lemma {:induction false} LiveSplit(allocations: seq<Allocation>, k: nat, id: NodeId)
    requires k < |allocations|
    ensures Live(allocations, id) ==
      Live(allocations[..k] + allocations[k + 1..], id) + OnNode(allocations[k].segments, id)
  {
    var front, back := allocations[..k], allocations[k + 1..];
    assert allocations == front + ([allocations[k]] + back);
    AllSegmentsAppend(front, [allocations[k]] + back);
    AllSegmentsAppend([allocations[k]], back);
    AllSegmentsAppend(front, back);
    assert AllSegments([allocations[k]]) == allocations[k].segments;
    OnNodeAppend(AllSegments(front), AllSegments([allocations[k]] + back), id);
    OnNodeAppend(allocations[k].segments, AllSegments(back), id);
    OnNodeAppend(AllSegments(front), AllSegments(back), id);
  }

  lemma {:induction false} LivePositive(allocations: seq<Allocation>)
    requires forall i :: 0 <= i < |allocations| ==> WellFormed(allocations[i])
    ensures Positive(AllSegments(allocations))
  {
    if |allocations| > 0 {
      LivePositive(allocations[1..]);
    }
  }

  lemma {:induction false} AllocateKeepsLedger(s: State, size: real, nodes: seq<Node>, owner: string, min: real,
                                               id: string)
    requires Ledger(s)
    ensures Ledger(Allocate(s, size, nodes, owner, min, id).0)
  {
    AllocateSucceedsExactly(s, size, nodes, owner, min, id);
    var (s', r) := Allocate(s, size, nodes, owner, min, id);
    if r.Some? {
      AllSegmentsAppend(s.allocations, [r.value]);
      assert AllSegments([r.value]) == r.value.segments;
      forall n ensures Held(s'.reserved, n) == Live(s'.allocations, n) {
        ReserveAllHeld(s.reserved, r.value.segments, n);
        OnNodeAppend(AllSegments(s.allocations), r.value.segments, n);
      }
    }
  }

  /** Releasing gives back exactly what the allocation took: the clamp at zero changes nothing. */
  lemma {:induction false} ReleaseKeepsLedger(s: State, id: string)
    requires Ledger(s)
    ensures Ledger(Release(s, id).0)
    ensures Release(s, id).1 <==> exists a :: a in s.allocations && a.id == id
    ensures var k := IndexOf(s.allocations, id);
            k < |s.allocations| ==>
              Release(s, id).0.reserved == SubtractAll(s.reserved, s.allocations[k].segments)
  {
    var k := IndexOf(s.allocations, id);
    if k < |s.allocations| {
      assert s.allocations[k] in s.allocations;
      var rest := s.allocations[..k] + s.allocations[k + 1..];
      var segs := s.allocations[k].segments;
      assert WellFormed(s.allocations[k]);
      forall i | 0 <= i < |rest| ensures WellFormed(rest[i]) {
        assert rest[i] == s.allocations[if i < k then i else i + 1];
      }
      forall n ensures Held(s.reserved, n) == Live(rest, n) + OnNode(segs, n) && Live(rest, n) >= 0.0 {
        LiveSplit(s.allocations, k, n);
        LivePositive(rest);
        OnNodeNonNegative(AllSegments(rest), n);
      }
      ClampNeverBites(s.reserved, segs);
    }
  }

  // ---- runs ----

  datatype Op =
    | DoAllocate(size: real, nodes: seq<Node>, owner: string, min: real, id: string)
    | DoRelease(id: string)

  function Apply(s: State, op: Op): State {
    match op
    case DoAllocate(size, nodes, owner, min, id) => Allocate(s, size, nodes, owner, min, id).0
    case DoRelease(id) => Release(s, id).0
  }

  function Run(s: State, ops: seq<Op>): State
    decreases |ops|
  {
    if |ops| == 0 then s else Run(Apply(s, ops[0]), ops[1..])
  }

  /** After any run, whatever node snapshots the allocations saw, the ledger holds. */
  lemma {:induction false} LedgerAlways(s: State, ops: seq<Op>)
    requires Ledger(s)
    ensures Ledger(Run(s, ops))
    decreases |ops|
  {
    if |ops| == 0 {
    } else {
      match ops[0] {
        case DoAllocate(size, nodes, owner, min, id) => AllocateKeepsLedger(s, size, nodes, owner, min, id);
        case DoRelease(id) => ReleaseKeepsLedger(s, id);
      }
      LedgerAlways(Apply(s, ops[0]), ops[1..]);
    }
  }

  lemma {:induction false} ReleaseLast(s: State, a: Allocation)
    requires |s.allocations| > 0 && s.allocations[|s.allocations| - 1] == a
    requires forall j :: 0 <= j < |s.allocations| - 1 ==> s.allocations[j].id != a.id
    ensures Release(s, a.id).1
    ensures Release(s, a.id).0.allocations == s.allocations[..|s.allocations| - 1]
  {
    var k := IndexOf(s.allocations, a.id);
    assert k == |s.allocations| - 1;
  }

  lemma {:induction false} SameLedger(s: State, r: State, n: Node)
    requires Ledger(s) && Ledger(r) && r.allocations == s.allocations
    ensures FreeOn(r.reserved, n) == FreeOn(s.reserved, n)
  {
    assert Held(r.reserved, n.id) == Live(s.allocations, n.id) == Held(s.reserved, n.id);
  }

  /** Releasing what was just allocated restores every node's free memory. */
  lemma {:induction false} ReleaseUndoesAllocate(s: State, size: real, nodes: seq<Node>, owner: string, min: real,
                                                 id: string, n: Node)
    requires Ledger(s) && forall a :: a in s.allocations ==> a.id != id
    requires Allocate(s, size, nodes, owner, min, id).1.Some?
    ensures var back := Release(Allocate(s, size, nodes, owner, min, id).0, id);
            back.1 && back.0.allocations == s.allocations && FreeOn(back.0.reserved, n) == FreeOn(s.reserved, n)
  {
    AllocateSucceedsExactly(s, size, nodes, owner, min, id);
    AllocateKeepsLedger(s, size, nodes, owner, min, id);
    var (mid, r) := Allocate(s, size, nodes, owner, min, id);
    assert mid.allocations[..|mid.allocations| - 1] == s.allocations;
    ReleaseKeepsLedger(mid, id);
    ReleaseLast(mid, r.value);
    SameLedger(s, Release(mid, id).0, n);
  }

  // ---- one fixed snapshot ----

  function Capacity(n: Node): real { Max(0.0, n.resources.ramFree) }

  function CapacitySum(nodes: seq<Node>): real {
    if |nodes| == 0 then 0.0 else Capacity(nodes[0]) + CapacitySum(nodes[1..])
  }

  ghost predicate Listed(id: NodeId, nodes: seq<Node>) {
    exists i :: 0 <= i < |nodes| && nodes[i].id == id
  }

  lemma {:induction false} ListedCons(id: NodeId, nodes: seq<Node>)
    requires |nodes| > 0
    ensures Listed(id, nodes) <==> nodes[0].id == id || Listed(id, nodes[1..])
  {
  }

  /** Segments lie on healthy nodes of the snapshot and no node is over-committed. */
  ghost predicate Within(s: State, nodes: seq<Node>) {
    && (forall g :: g in AllSegments(s.allocations) ==> Listed(g.node, HealthyNodes(nodes)))
    && (forall n :: n in HealthyNodes(nodes) ==> Held(s.reserved, n.id) <= Capacity(n))
  }

  function FreeFor(id: NodeId): Block -> real {
    (b: Block) => if b.0.id == id then b.1 else 0.0
  }

  lemma {:induction false} StripedShare(blocks: seq<Block>, remaining: real, min: real, id: NodeId)
    requires Usable(blocks, min)
    ensures OnNode(Striped(blocks, remaining, min).0, id) <= SumBy(FreeFor(id), blocks)
    ensures 0.0 <= SumBy(FreeFor(id), blocks)
  {
    if |blocks| == 0 {
    } else if remaining <= 0.0 {
      StripedShare(blocks[1..], remaining, min, id);
    } else {
      StripedShare(blocks[1..], remaining - Min(blocks[0].1, remaining), min, id);
      if Skips(blocks[0].1, remaining, min) {
        StripedShare(blocks[1..], remaining, min, id);
      }
    }
  }

  lemma {:induction false} BlocksShare(reserved: Reserved, nodes: seq<Node>, min: real, id: NodeId)
    requires UniqueNodes(nodes)
    ensures !Listed(id, nodes) ==> SumBy(FreeFor(id), Blocks(reserved, nodes, min)) == 0.0
    ensures forall n :: n in nodes && n.id == id ==>
      SumBy(FreeFor(id), Blocks(reserved, nodes, min)) <= FreeOn(reserved, n)
  {
    if |nodes| == 0 {
    } else {
      BlocksShare(reserved, nodes[1..], min, id);
      var rest := Blocks(reserved, nodes[1..], min);
      assert [] + rest == rest;
      ListedCons(id, nodes);
      if nodes[0].id == id {
        assert !Listed(id, nodes[1..]);
      }
    }
  }

  lemma {:induction false} StripedNodes(blocks: seq<Block>, remaining: real, min: real)
    ensures forall g :: g in Striped(blocks, remaining, min).0 ==> exists b :: b in blocks && b.0.id == g.node
  {
    if |blocks| == 0 || remaining <= 0.0 {
    } else {
      StripedNodes(blocks[1..], remaining, min);
      StripedNodes(blocks[1..], remaining - Min(blocks[0].1, remaining), min);
      assert blocks[0] in blocks;
      assert forall b :: b in blocks[1..] ==> b in blocks;
    }
  }

  lemma {:induction false} AllocateStaysWithin(s: State, size: real, nodes: seq<Node>, owner: string, min: real,
                                               id: string)
    requires UniqueNodes(nodes) && Within(s, nodes)
    ensures Within(Allocate(s, size, nodes, owner, min, id).0, nodes)
  {
    AllocateSucceedsExactly(s, size, nodes, owner, min, id);
    var (s', r) := Allocate(s, size, nodes, owner, min, id);
    if r.Some? {
      var found := Blocks(s.reserved, nodes, min);
      var blocks := ByFree(s.reserved, nodes, min);
      ByFreeFacts(s.reserved, nodes, min);
      var segs := r.value.segments;
      forall n | n in HealthyNodes(nodes) ensures Held(s'.reserved, n.id) <= Capacity(n) {
        ReserveAllHeld(s.reserved, segs, n.id);
        StripedShare(blocks, size, min, n.id);
        SumBySort(FreeFor(n.id), found, LessFree);
        SumBySort(FreeFor(n.id), Sort(found, LessFree), MoreFree);
        BlocksShare(s.reserved, nodes, min, n.id);
      }
      AllSegmentsAppend(s.allocations, [r.value]);
      assert AllSegments([r.value]) == segs;
      forall g | g in segs ensures Listed(g.node, HealthyNodes(nodes)) {
        StripedNodes(blocks, size, min);
        var b :| b in blocks && b.0.id == g.node;
        assert b.0 in HealthyNodes(nodes);
      }
    }
  }

  lemma {:induction false} LiveShrinks(allocations: seq<Allocation>, k: nat, id: NodeId)
    requires k < |allocations| && WellFormed(allocations[k])
    ensures Live(allocations[..k] + allocations[k + 1..], id) <= Live(allocations, id)
  {
    LiveSplit(allocations, k, id);
    OnNodeNonNegative(allocations[k].segments, id);
  }

  lemma {:induction false} RestSegments(allocations: seq<Allocation>, k: nat, g: Segment)
    requires k < |allocations| && g in AllSegments(allocations[..k] + allocations[k + 1..])
    ensures g in AllSegments(allocations)
  {
    var front, one, back := allocations[..k], [allocations[k]], allocations[k + 1..];
    assert allocations == front + (one + back);
    AllSegmentsAppend(front, one + back);
    AllSegmentsAppend(one, back);
    AllSegmentsAppend(front, back);
  }

  lemma {:induction false} ReleaseStaysWithin(s: State, id: string, nodes: seq<Node>)
    requires Ledger(s) && Within(s, nodes)
    ensures Within(Release(s, id).0, nodes)
  {
    var k := IndexOf(s.allocations, id);
    if k < |s.allocations| {
      ReleaseKeepsLedger(s, id);
      ShrunkStaysWithin(s, Release(s, id).0, k, nodes);
    }
  }

  lemma {:induction false} ShrunkStaysWithin(s: State, r: State, k: nat, nodes: seq<Node>)
    requires Ledger(s) && Within(s, nodes) && Ledger(r)
    requires k < |s.allocations| && r.allocations == s.allocations[..k] + s.allocations[k + 1..]
    ensures Within(r, nodes)
  {
    var healthy := HealthyNodes(nodes);
    forall n | n in healthy ensures Held(r.reserved, n.id) <= Capacity(n) {
      LiveShrinks(s.allocations, k, n.id);
    }
    forall g | g in AllSegments(r.allocations) ensures Listed(g.node, healthy) {
      RestSegments(s.allocations, k, g);
    }
  }

  /** What the segments take on the listed nodes, node by node. */
  function OnNodes(segs: seq<Segment>, nodes: seq<Node>): real {
    if |nodes| == 0 then 0.0 else OnNode(segs, nodes[0].id) + OnNodes(segs, nodes[1..])
  }

  lemma {:induction false} OnNodesCons(g: Segment, segs: seq<Segment>, nodes: seq<Node>)
    requires UniqueNodes(nodes)
    ensures OnNodes([g] + segs, nodes) == OnNodes(segs, nodes) + (if Listed(g.node, nodes) then g.size else 0.0)
  {
    if |nodes| == 0 {
    } else {
      OnNodesCons(g, segs, nodes[1..]);
      assert ([g] + segs)[1..] == segs;
      ListedCons(g.node, nodes);
    }
  }

  lemma {:induction false} OnNodesNone(nodes: seq<Node>)
    ensures OnNodes([], nodes) == 0.0
  {
    if |nodes| > 0 {
      OnNodesNone(nodes[1..]);
    }
  }

  /** Counting the segments node by node counts each of them once. */
  lemma {:induction false} OnNodesIsTotal(segs: seq<Segment>, nodes: seq<Node>)
    requires UniqueNodes(nodes) && forall g :: g in segs ==> Listed(g.node, nodes)
    ensures OnNodes(segs, nodes) == SumBy(SizeOf, segs)
  {
    if |segs| == 0 {
      OnNodesNone(nodes);
    } else {
      OnNodesIsTotal(segs[1..], nodes);
      OnNodesCons(segs[0], segs[1..], nodes);
      assert segs == [segs[0]] + segs[1..];
    }
  }

  lemma {:induction false} TotalsAreSizes(allocations: seq<Allocation>)
    requires forall i :: 0 <= i < |allocations| ==> WellFormed(allocations[i])
    ensures SumBy(TotalOf, allocations) == SumBy(SizeOf, AllSegments(allocations))
  {
    if |allocations| > 0 {
      assert WellFormed(allocations[0]);
      TotalsAreSizes(allocations[1..]);
      SumByAppend(SizeOf, allocations[0].segments, AllSegments(allocations[1..]));
    }
  }

  lemma {:induction false} FreePlusHeld(s: State, nodes: seq<Node>, free: Node -> real)
    requires Ledger(s) && forall n :: n in nodes ==> 0.0 <= Held(s.reserved, n.id) <= Capacity(n)
    requires forall n :: free(n) == FreeOn(s.reserved, n)
    ensures SumBy(free, nodes) + OnNodes(AllSegments(s.allocations), nodes) == CapacitySum(nodes)
  {
    if |nodes| > 0 {
      FreePlusHeld(s, nodes[1..], free);
      assert nodes[0] in nodes;
      assert Held(s.reserved, nodes[0].id) == Live(s.allocations, nodes[0].id);
    }
  }

  lemma {:induction false} HealthyUnique(nodes: seq<Node>)
    requires UniqueNodes(nodes)
    ensures UniqueNodes(HealthyNodes(nodes))
  {
    FilterUnique(nodes, (n: Node) => n.state == Healthy);
  }

  lemma {:induction false} PoolBalances(s: State, nodes: seq<Node>)
    requires UniqueNodes(nodes) && Ledger(s) && Within(s, nodes)
    ensures Stats(s, nodes).freeGb + Stats(s, nodes).allocatedGb == CapacitySum(HealthyNodes(nodes))
  {
    var eligible := HealthyNodes(nodes);
    HealthyUnique(nodes);
    LivePositive(s.allocations);
    forall n | n in eligible ensures 0.0 <= Held(s.reserved, n.id) <= Capacity(n) {
      OnNodeNonNegative(AllSegments(s.allocations), n.id);
    }
    FreePlusHeld(s, eligible, (n: Node) => FreeOn(s.reserved, n));
    OnNodesIsTotal(AllSegments(s.allocations), eligible);
    TotalsAreSizes(s.allocations);
  }

  // ---- what pool_stats reports ----

  lemma {:induction false} SegmentCountAppend(a: seq<Allocation>, b: seq<Allocation>)
    ensures SegmentCount(a + b) == SegmentCount(a) + SegmentCount(b)
  {
    if |a| == 0 {
      assert a + b == b;
    } else {
      SegmentCountAppend(a[1..], b);
      assert (a + b)[1..] == a[1..] + b;
    }
  }

  /** An empty fabric without nodes has nothing to report, and one more node counts if and only if it is healthy. */
  lemma {:induction false} StatsCountNodes(s: State, nodes: seq<Node>, n: Node)
    ensures Stats(EMPTY, []) == PoolStats(0.0, 0.0, 0.0, 0, 0)
    ensures var was := Stats(s, nodes);
            Stats(s, nodes + [n]) ==
              if n.state == Healthy then
                was.(totalGb := was.totalGb + n.resources.ramTotal,
                     freeGb := was.freeGb + Max(0.0, n.resources.ramFree - Held(s.reserved, n.id)),
                     nodeCount := was.nodeCount + 1)
              else was
  {
    FilterAppend(nodes, [n], (m: Node) => m.state == Healthy);
    assert [n][1..] == [];
    assert HealthyNodes([n]) == if n.state == Healthy then [n] else [];
    var total, free := (m: Node) => m.resources.ramTotal, (m: Node) => FreeOn(s.reserved, m);
    SumByAppend(total, HealthyNodes(nodes), HealthyNodes([n]));
    SumByAppend(free, HealthyNodes(nodes), HealthyNodes([n]));
    assert HealthyNodes(nodes) + [] == HealthyNodes(nodes);
  }

  /**
   * A successful `allocate` moves its size from free to allocated and adds its segments; a failed one moves nothing.
   */
  lemma {:induction false} AllocateStats(s: State, size: real, nodes: seq<Node>, owner: string, min: real, id: string)
    requires UniqueNodes(nodes) && Ledger(s) && Within(s, nodes)
    ensures var (s', r) := Allocate(s, size, nodes, owner, min, id);
            var was := Stats(s, nodes);
            Stats(s', nodes) ==
              if r.None? then was
              else was.(freeGb := was.freeGb - size, allocatedGb := was.allocatedGb + size,
                        segmentCount := was.segmentCount + |r.value.segments|)
  {
    var (s', r) := Allocate(s, size, nodes, owner, min, id);
    AllocateSucceedsExactly(s, size, nodes, owner, min, id);
    if r.Some? {
      PoolBalances(s, nodes);
      AllocateKeepsLedger(s, size, nodes, owner, min, id);
      AllocateStaysWithin(s, size, nodes, owner, min, id);
      PoolBalances(s', nodes);
      SumByAppend(TotalOf, s.allocations, [r.value]);
      SegmentCountAppend(s.allocations, [r.value]);
      OneAllocation(r.value);
    }
  }

  lemma {:induction false} OneAllocation(a: Allocation)
    ensures SumBy(TotalOf, [a]) == a.total && SegmentCount([a]) == |a.segments|
  {
    assert [a][1..] == [];
  }

  /** A `release` removes the first allocation with that id, keeps the others in order, and frees what it took. */
  lemma {:induction false} ReleaseStats(s: State, id: string, nodes: seq<Node>, k: nat)
    requires UniqueNodes(nodes) && Ledger(s) && Within(s, nodes)
    requires k < |s.allocations| && s.allocations[k].id == id && forall j :: 0 <= j < k ==> s.allocations[j].id != id
    ensures var r, a := Release(s, id).0, s.allocations[k];
            && r.allocations == s.allocations[..k] + s.allocations[k + 1..]
            && var now := Stats(r, nodes);
               Stats(s, nodes) == now.(freeGb := now.freeGb - a.total, allocatedGb := now.allocatedGb + a.total,
                                       segmentCount := now.segmentCount + |a.segments|)
  {
    var r := ReleaseFirst(s, id, nodes, k);
    ShrunkStats(s, r, k, nodes);
  }

  lemma {:induction false} ReleaseFirst(s: State, id: string, nodes: seq<Node>, k: nat) returns (r: State)
    requires UniqueNodes(nodes) && Ledger(s) && Within(s, nodes)
    requires k < |s.allocations| && s.allocations[k].id == id && forall j :: 0 <= j < k ==> s.allocations[j].id != id
    ensures r == Release(s, id).0 && Ledger(r) && Within(r, nodes)
    ensures r.allocations == s.allocations[..k] + s.allocations[k + 1..]
  {
    r := Release(s, id).0;
    assert IndexOf(s.allocations, id) == k;
    ReleaseKeepsLedger(s, id);
    ReleaseStaysWithin(s, id, nodes);
  }

  lemma {:induction false} ShrunkStats(s: State, r: State, k: nat, nodes: seq<Node>)
    requires UniqueNodes(nodes) && Ledger(s) && Within(s, nodes) && Ledger(r) && Within(r, nodes)
    requires k < |s.allocations| && r.allocations == s.allocations[..k] + s.allocations[k + 1..]
    ensures var now, a := Stats(r, nodes), s.allocations[k];
            Stats(s, nodes) == now.(freeGb := now.freeGb - a.total, allocatedGb := now.allocatedGb + a.total,
                                    segmentCount := now.segmentCount + |a.segments|)
  {
    PoolBalances(s, nodes);
    PoolBalances(r, nodes);
    SumsWithout(s.allocations, k, r.allocations);
  }

  lemma {:induction false} SumsWithout(all: seq<Allocation>, k: nat, rest: seq<Allocation>)
    requires k < |all| && rest == all[..k] + all[k + 1..]
    ensures SumBy(TotalOf, all) == SumBy(TotalOf, rest) + all[k].total
    ensures SegmentCount(all) == SegmentCount(rest) + |all[k].segments|
  {
    var front, a, back := all[..k], all[k], all[k + 1..];
    assert all == front + ([a] + back);
    OneAllocation(a);
    AllocationSums(front, [a] + back);
    AllocationSums([a], back);
    AllocationSums(front, back);
  }

  lemma {:induction false} AllocationSums(a: seq<Allocation>, b: seq<Allocation>)
    ensures SumBy(TotalOf, a + b) == SumBy(TotalOf, a) + SumBy(TotalOf, b)
    ensures SegmentCount(a + b) == SegmentCount(a) + SegmentCount(b)
  {
    SumByAppend(TotalOf, a, b);
    SegmentCountAppend(a, b);
  }

  ghost predicate SameSnapshot(ops: seq<Op>, nodes: seq<Node>) {
    forall i :: 0 <= i < |ops| && ops[i].DoAllocate? ==> ops[i].nodes == nodes
  }

  lemma {:induction false} RunStaysWithin(s: State, ops: seq<Op>, nodes: seq<Node>)
    requires UniqueNodes(nodes) && SameSnapshot(ops, nodes) && Ledger(s) && Within(s, nodes)
    ensures Ledger(Run(s, ops)) && Within(Run(s, ops), nodes)
    decreases |ops|
  {
    if |ops| == 0 {
    } else {
      match ops[0] {
        case DoAllocate(size, snapshot, owner, min, id) =>
          AllocateKeepsLedger(s, size, nodes, owner, min, id);
          AllocateStaysWithin(s, size, nodes, owner, min, id);
        case DoRelease(id) =>
          ReleaseKeepsLedger(s, id);
          ReleaseStaysWithin(s, id, nodes);
      }
      RunStaysWithin(Apply(s, ops[0]), ops[1..], nodes);
    }
  }

  /**
   * From an empty fabric and with one snapshot throughout: no node is ever reserved beyond its free memory,
   * and free plus allocated memory stays the snapshot's free memory.
   */
  lemma {:induction false} PoolConserved(ops: seq<Op>, nodes: seq<Node>)
    requires UniqueNodes(nodes) && SameSnapshot(ops, nodes)
    ensures var s := Run(EMPTY, ops);
            && Stats(s, nodes).freeGb + Stats(s, nodes).allocatedGb == CapacitySum(HealthyNodes(nodes))
            && forall n :: n in HealthyNodes(nodes) ==> Held(s.reserved, n.id) <= Max(0.0, n.resources.ramFree)
  {
    RunStaysWithin(EMPTY, ops, nodes);
    PoolBalances(Run(EMPTY, ops), nodes);
  }
}
