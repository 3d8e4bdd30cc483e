/** mesh/memory/fabric.py: the memory fabric, an allocator that stripes requests over nodes. */
module Fabric {
  import opened Sorting
  import opened Models

  datatype Segment = Segment(node: NodeId, hostname: string, size: real, location: string)

  datatype Allocation = Allocation(id: string, total: real, segments: seq<Segment>, owner: string, pinned: bool)

  type Reserved = map<NodeId, real>

  /** The fabric's two tables; live allocations are listed in the dictionary's insertion order. */
  datatype State = State(allocations: seq<Allocation>, reserved: Reserved)

  const EMPTY := State([], map[])

  datatype PoolStats = PoolStats(totalGb: real, freeGb: real, allocatedGb: real, nodeCount: nat, segmentCount: nat)

  function Held(reserved: Reserved, id: NodeId): real {
    if id in reserved then reserved[id] else 0.0
  }

  function FreeOn(reserved: Reserved, n: Node): real {
    Max(0.0, n.resources.ramFree - Held(reserved, n.id))
  }

  // ---- allocate ----

  /** A healthy node with its free memory. */
  type Block = (Node, real)

  predicate LessFree(a: Block, b: Block) { a.1 <= b.1 }

  predicate MoreFree(a: Block, b: Block) { a.1 >= b.1 }

  function FreeOf(b: Block): real { b.1 }

  function Blocks(reserved: Reserved, nodes: seq<Node>, min: real): seq<Block> {
    if |nodes| == 0 then []
    else
      var free := FreeOn(reserved, nodes[0]);
      (if nodes[0].state == Healthy && free >= min then [(nodes[0], free)] else [])
      + Blocks(reserved, nodes[1..], min)
  }

  /** The blocks in the order the greedy loop visits them. */
  function ByFree(reserved: Reserved, nodes: seq<Node>, min: real): seq<Block> {
    Sort(Sort(Blocks(reserved, nodes, min), LessFree), MoreFree)
  }

  function SegmentOn(n: Node, size: real): Segment { Segment(n.id, n.hostname, size, n.location) }

  /** Whether the greedy loop passes over a block because its share would be below the minimum. */
  predicate Skips(free: real, remaining: real, min: real) {
    Min(free, remaining) < min && remaining > min
  }

  /** The segments the greedy loop makes, and what it still lacks at the end. */
  function Striped(blocks: seq<Block>, remaining: real, min: real): (seq<Segment>, real) {
    if |blocks| == 0 || remaining <= 0.0 then ([], remaining)
    else if Skips(blocks[0].1, remaining, min) then Striped(blocks[1..], remaining, min)
    else
      var take := Min(blocks[0].1, remaining);
      var rest := Striped(blocks[1..], remaining - take, min);
      ([SegmentOn(blocks[0].0, take)] + rest.0, rest.1)
  }

  function Reserve(reserved: Reserved, s: Segment): Reserved {
    reserved[s.node := Held(reserved, s.node) + s.size]
  }

  function Unreserve(reserved: Reserved, s: Segment): Reserved {
    reserved[s.node := Max(0.0, Held(reserved, s.node) - s.size)]
  }

  function ReserveAll(reserved: Reserved, segs: seq<Segment>): Reserved {
    if |segs| == 0 then reserved
    else Reserve(ReserveAll(reserved, segs[..|segs| - 1]), segs[|segs| - 1])
  }

  function UnreserveAll(reserved: Reserved, segs: seq<Segment>): Reserved {
    if |segs| == 0 then reserved
    else Unreserve(UnreserveAll(reserved, segs[..|segs| - 1]), segs[|segs| - 1])
  }

  function Allocate(s: State, size: real, nodes: seq<Node>, owner: string, min: real, id: string)
    : (State, Option<Allocation>)
  {
    if size <= 0.0 then (s, None)
    else if SumBy(FreeOf, Sort(Blocks(s.reserved, nodes, min), LessFree)) < size then (s, None)
    else
      var (segs, lacking) := Striped(ByFree(s.reserved, nodes, min), size, min);
      var reserved := ReserveAll(s.reserved, segs);
      if lacking > 0.01 then (s.(reserved := UnreserveAll(reserved, segs)), None)
      else
        var a := Allocation(id, size, segs, owner, false);
        (State(s.allocations + [a], reserved), Some(a))
  }

  // ---- release ----

  function IndexOf(allocations: seq<Allocation>, id: string): (k: nat)
    ensures k <= |allocations|
    ensures k < |allocations| ==> allocations[k].id == id
    ensures forall j :: 0 <= j < k ==> allocations[j].id != id
  {
    if |allocations| == 0 || allocations[0].id == id then 0 else 1 + IndexOf(allocations[1..], id)
  }

  function Release(s: State, id: string): (State, bool) {
    var k := IndexOf(s.allocations, id);
    if k == |s.allocations| then (s, false)
    else (State(s.allocations[..k] + s.allocations[k + 1..],
                UnreserveAll(s.reserved, s.allocations[k].segments)), true)
  }

  function TotalOf(a: Allocation): real { a.total }

  function SegmentCount(allocations: seq<Allocation>): nat {
    if |allocations| == 0 then 0 else |allocations[0].segments| + SegmentCount(allocations[1..])
  }

  function Stats(s: State, nodes: seq<Node>): PoolStats {
    var eligible := HealthyNodes(nodes);
    PoolStats(
      SumBy((n: Node) => n.resources.ramTotal, eligible),
      SumBy((n: Node) => FreeOn(s.reserved, n), eligible),
      SumBy(TotalOf, s.allocations),
      |eligible|,
      SegmentCount(s.allocations))
  }

  /** What the loop ends with, once it has made `segs` and `blocks` are left. */
  function StripedAfter(segs: seq<Segment>, blocks: seq<Block>, remaining: real, min: real): (seq<Segment>, real)
    decreases |blocks|
  {
    if |blocks| == 0 || remaining <= 0.0 then (segs, remaining)
    else if Skips(blocks[0].1, remaining, min) then StripedAfter(segs, blocks[1..], remaining, min)
    else
      var take := Min(blocks[0].1, remaining);
      StripedAfter(segs + [SegmentOn(blocks[0].0, take)], blocks[1..], remaining - take, min)
  }

  lemma {:induction false} StripedAfterAppends(segs: seq<Segment>, blocks: seq<Block>, remaining: real, min: real)
    ensures var (more, lacking) := Striped(blocks, remaining, min);
            StripedAfter(segs, blocks, remaining, min) == (segs + more, lacking)
    decreases |blocks|
  {
    if |blocks| == 0 || remaining <= 0.0 {
      assert segs + [] == segs;
    } else if Skips(blocks[0].1, remaining, min) {
      StripedAfterAppends(segs, blocks[1..], remaining, min);
    } else {
      var take := Min(blocks[0].1, remaining);
      var one, more := [SegmentOn(blocks[0].0, take)], Striped(blocks[1..], remaining - take, min).0;
      StripedAfterAppends(segs + one, blocks[1..], remaining - take, min);
      assert (segs + one) + more == segs + (one + more);
    }
  }

  lemma {:induction false} ReserveAllSnoc(reserved: Reserved, segs: seq<Segment>, s: Segment)
    ensures ReserveAll(reserved, segs + [s]) == Reserve(ReserveAll(reserved, segs), s)
  {
    assert (segs + [s])[..|segs|] == segs;
  }

  lemma {:induction false} UnreserveAllStep(reserved: Reserved, segs: seq<Segment>, i: nat)
    requires i < |segs|
    ensures UnreserveAll(reserved, segs[..i + 1]) == Unreserve(UnreserveAll(reserved, segs[..i]), segs[i])
  {
    assert segs[..i + 1][..i] == segs[..i];
  }

  class MemoryFabric {
    var allocations: seq<Allocation>
    var reserved: Reserved

    function View(): State
      reads this
    {
      State(allocations, reserved)
    }

    constructor ()
      ensures View() == EMPTY
    {
      allocations, reserved := [], map[];
    }

    method GiveBack(segs: seq<Segment>)
      modifies this
      ensures View() == old(View()).(reserved := UnreserveAll(old(reserved), segs))
    {
      assert segs[..0] == [];
      for i := 0 to |segs|
        invariant allocations == old(allocations)
        invariant reserved == UnreserveAll(old(reserved), segs[..i])
      {
        UnreserveAllStep(old(reserved), segs, i);
        reserved := reserved[segs[i].node := Max(0.0, Held(reserved, segs[i].node) - segs[i].size)];
      }
      assert segs[..|segs|] == segs;
    }

    /** The greedy loop: visits the blocks in order and reserves a share of each. */
    method Stripe(byFree: seq<Block>, size: real, min: real) returns (segments: seq<Segment>, remaining: real)
      modifies this
      ensures (segments, remaining) == Striped(byFree, size, min)
      ensures View() == old(View()).(reserved := ReserveAll(old(reserved), segments))
    {
      remaining := size;
      segments := [];
      var rest := byFree;
      while |rest| > 0
        invariant StripedAfter(segments, rest, remaining, min) == StripedAfter([], byFree, size, min)
        invariant View() == old(View()).(reserved := ReserveAll(old(reserved), segments))
      {
        if remaining <= 0.0 {
          break;
        }
        var (node, free) := rest[0];
        var take := Min(free, remaining);
        if !(take < min && remaining > min) {
          ReserveAllSnoc(old(reserved), segments, SegmentOn(node, take));
          segments := TakeFrom(node, take, segments);
          remaining := remaining - take;
        }
        rest := rest[1..];
      }
      StripedAfterAppends([], byFree, size, min);
      assert [] + Striped(byFree, size, min).0 == Striped(byFree, size, min).0;
    }

    /** One more segment, which is reserved on its node at once. */
    method TakeFrom(node: Node, take: real, segments: seq<Segment>) returns (longer: seq<Segment>)
      modifies this
      ensures longer == segments + [SegmentOn(node, take)]
      ensures View() == old(View()).(reserved := Reserve(old(reserved), SegmentOn(node, take)))
    {
      longer := segments + [Segment(node.id, node.hostname, take, node.location)];
      reserved := reserved[node.id := Held(reserved, node.id) + take];
    }

    /** `id` is the fresh identifier drawn for the allocation. */
    method AllocateMemory(size: real, nodes: seq<Node>, owner: string, min: real, id: string)
      returns (r: Option<Allocation>)
      modifies this
      ensures (View(), r) == Allocate(old(View()), size, nodes, owner, min, id)
    {
      if size <= 0.0 {
        return None;
      }
      var available := Sort(Blocks(reserved, nodes, min), LessFree);
      if SumBy(FreeOf, available) < size {
        return None;
      }
      var segments, remaining := Stripe(Sort(available, MoreFree), size, min);
      if remaining > 0.01 {
        GiveBack(segments);
        return None;
      }
      var a := Allocation(id, size, segments, owner, false);
      allocations := allocations + [a];
      r := Some(a);
    }

    method ReleaseMemory(id: string) returns (found: bool)
      modifies this
      ensures (View(), found) == Release(old(View()), id)
    {
      var k := IndexOf(allocations, id);
      if k == |allocations| {
        return false;
      }
      var a := allocations[k];
      allocations := allocations[..k] + allocations[k + 1..];
      GiveBack(a.segments);
      found := true;
    }
  }
}
