/** What the memory fabric guarantees: success, fewest segments, the reservation ledger, the pool total. */
module FabricTheory {
  import opened Sorting
  import opened Models
  import opened Fabric

  function SizeOf(s: Segment): real { s.size }

  /** Memory the segments take on node `id`. */
  function OnNode(segs: seq<Segment>, id: NodeId): real {
    if |segs| == 0 then 0.0
    else (if segs[0].node == id then segs[0].size else 0.0) + OnNode(segs[1..], id)
  }

  lemma {:induction false} OnNodeAppend(a: seq<Segment>, b: seq<Segment>, id: NodeId)
    ensures OnNode(a + b, id) == OnNode(a, id) + OnNode(b, id)
  {
    if |a| == 0 {
      assert a + b == b;
    } else {
      OnNodeAppend(a[1..], b, id);
      assert (a + b)[1..] == a[1..] + b;
    }
  }

  ghost predicate Positive(segs: seq<Segment>) {
    forall i :: 0 <= i < |segs| ==> segs[i].size > 0.0
  }

  lemma {:induction false} OnNodeNonNegative(segs: seq<Segment>, id: NodeId)
    requires Positive(segs)
    ensures OnNode(segs, id) >= 0.0
  {
    if |segs| == 0 {
    } else {
      OnNodeNonNegative(segs[1..], id);
    }
  }

  // ---- the greedy loop ----

  /** What the loop relies on: no block is smaller than the minimum, and none is negative. */
  ghost predicate Usable(blocks: seq<Block>, min: real) {
    forall i :: 0 <= i < |blocks| ==> blocks[i].1 >= min && blocks[i].1 >= 0.0
  }

  lemma {:induction false} UsableSum(blocks: seq<Block>, min: real)
    requires Usable(blocks, min)
    ensures SumBy(FreeOf, blocks) >= 0.0
  {
    if |blocks| > 0 {
      UsableSum(blocks[1..], min);
    }
  }

  /** On usable blocks with enough memory the loop never skips and ends with nothing lacking. */
  lemma {:induction false} StripedExact(blocks: seq<Block>, remaining: real, min: real)
    requires Usable(blocks, min) && 0.0 <= remaining <= SumBy(FreeOf, blocks)
    ensures var (segs, lacking) := Striped(blocks, remaining, min);
            && lacking == 0.0
            && SumBy(SizeOf, segs) == remaining
            && |segs| <= |blocks|
            && (remaining > 0.0 ==> |segs| > 0)
            && (forall i :: 0 <= i < |segs| ==>
                  && segs[i].node == blocks[i].0.id && segs[i].hostname == blocks[i].0.hostname
                  && segs[i].location == blocks[i].0.location)
  {
    if |blocks| == 0 || remaining <= 0.0 {
    } else {
      UsableSum(blocks[1..], min);
      StripedExact(blocks[1..], remaining - Min(blocks[0].1, remaining), min);
    }
  }

  /** All but the last segment take everything their block has, so one segment fewer is too little. */
  lemma {:induction false} StripedIsTight(blocks: seq<Block>, remaining: real, min: real)
    requires Usable(blocks, min) && 0.0 < remaining <= SumBy(FreeOf, blocks)
    ensures var k := |Striped(blocks, remaining, min).0|;
            1 <= k <= |blocks| && SumBy(FreeOf, blocks[..k - 1]) < remaining
    ensures var segs := Striped(blocks, remaining, min).0;
            forall i :: 0 <= i < |segs| - 1 ==> segs[i].size == blocks[i].1
  {
    StripedExact(blocks, remaining, min);
    var take := Min(blocks[0].1, remaining);
    if take < remaining {
      StripedIsTight(blocks[1..], remaining - take, min);
      var k := |Striped(blocks, remaining, min).0|;
      assert blocks[..k - 1] == [blocks[0]] + blocks[1..][..k - 2];
    } else {
      assert Striped(blocks[1..], 0.0, min).0 == [];
    }
  }

  ghost predicate Descending(blocks: seq<Block>) { Sorted(blocks, MoreFree) }

  lemma {:induction false} StripedPositive(blocks: seq<Block>, remaining: real, min: real)
    requires Usable(blocks, min) && Descending(blocks) && 0.0 <= remaining <= SumBy(FreeOf, blocks)
    ensures Positive(Striped(blocks, remaining, min).0)
  {
    if |blocks| == 0 || remaining <= 0.0 {
    } else {
      if blocks[0].1 <= 0.0 {
        ZeroBlocks(blocks);
        assert false;
      }
      UsableSum(blocks[1..], min);
      StripedPositive(blocks[1..], remaining - Min(blocks[0].1, remaining), min);
    }
  }

  lemma {:induction false} ZeroBlocks(blocks: seq<Block>)
    requires Descending(blocks) && |blocks| > 0 && blocks[0].1 <= 0.0
    ensures SumBy(FreeOf, blocks) <= 0.0
  {
    if |blocks| > 1 {
      assert MoreFree(blocks[0], blocks[1]);
      ZeroBlocks(blocks[1..]);
    }
  }

  // ---- when allocate succeeds ----

  lemma {:induction false} BlocksUsable(reserved: Reserved, nodes: seq<Node>, min: real)
    ensures Usable(Blocks(reserved, nodes, min), min)
    ensures forall b :: b in Blocks(reserved, nodes, min) ==>
      b.0 in nodes && b.0.state == Healthy && b.1 == FreeOn(reserved, b.0)
  {
    if |nodes| == 0 {
    } else {
      BlocksUsable(reserved, nodes[1..], min);
    }
  }

  lemma {:induction false} ByFreeFacts(reserved: Reserved, nodes: seq<Node>, min: real)
    ensures var blocks := ByFree(reserved, nodes, min);
            && Usable(blocks, min)
            && Descending(blocks)
            && SumBy(FreeOf, blocks) == SumBy(FreeOf, Blocks(reserved, nodes, min))
            && multiset(blocks) == multiset(Blocks(reserved, nodes, min))
            && (forall b :: b in blocks ==> b.0 in nodes && b.0.state == Healthy && b.1 == FreeOn(reserved, b.0))
  {
    var found := Blocks(reserved, nodes, min);
    var available := Sort(found, LessFree);
    BlocksUsable(reserved, nodes, min);
    SortSorts(found, LessFree);
    SortSorts(available, MoreFree);
    SumBySort(FreeOf, found, LessFree);
    SumBySort(FreeOf, available, MoreFree);
    var blocks := Sort(available, MoreFree);
    forall i | 0 <= i < |blocks| ensures blocks[i].1 >= min && blocks[i].1 >= 0.0 {
      assert blocks[i] in found;
    }
  }

  /** Blocks with the same free memory are visited in the order in which their nodes were given. */
  lemma {:induction false} TiesKeepOrder(reserved: Reserved, nodes: seq<Node>, min: real, free: real)
    ensures Filter(ByFree(reserved, nodes, min), (b: Block) => b.1 == free)
            == Filter(Blocks(reserved, nodes, min), (b: Block) => b.1 == free)
  {
    var found := Blocks(reserved, nodes, min);
    SortIsStable(found, LessFree, (b: Block) => b.1 == free);
    SortIsStable(Sort(found, LessFree), MoreFree, (b: Block) => b.1 == free);
  }

  /** Memory that `allocate` can draw on. */
  function Available(s: State, nodes: seq<Node>, min: real): real {
    SumBy(FreeOf, Blocks(s.reserved, nodes, min))
  }

  /**
   * `allocate` succeeds exactly when the request is positive and the usable blocks hold it; its segments
   * then add up to the request, and the skip and the rollback are never taken.
   */
  lemma {:induction false} AllocateSucceedsExactly(s: State, size: real, nodes: seq<Node>, owner: string, min: real,
                                                   id: string)
    ensures var (s', r) := Allocate(s, size, nodes, owner, min, id);
            && (r.Some? <==> size > 0.0 && Available(s, nodes, min) >= size)
            && (r.None? ==> s' == s)
            && (r.Some? ==>
                 && r.value == Allocation(id, size, Striped(ByFree(s.reserved, nodes, min), size, min).0, owner, false)
                 && s' == State(s.allocations + [r.value], ReserveAll(s.reserved, r.value.segments))
                 && SumBy(SizeOf, r.value.segments) == size
                 && |r.value.segments| > 0
                 && Positive(r.value.segments))
  {
    ByFreeFacts(s.reserved, nodes, min);
    SumBySort(FreeOf, Blocks(s.reserved, nodes, min), LessFree);
    if size > 0.0 && Available(s, nodes, min) >= size {
      StripedExact(ByFree(s.reserved, nodes, min), size, min);
      StripedPositive(ByFree(s.reserved, nodes, min), size, min);
    }
  }

  // ---- fewest segments ----

  function FreeSum(reserved: Reserved, nodes: seq<Node>): real {
    if |nodes| == 0 then 0.0 else FreeOn(reserved, nodes[0]) + FreeSum(reserved, nodes[1..])
  }

  function Without(nodes: seq<Node>, k: nat): seq<Node>
    requires k < |nodes|
  {
    nodes[..k] + nodes[k + 1..]
  }

  lemma {:induction false} FreeSumWithout(reserved: Reserved, nodes: seq<Node>, k: nat)
    requires k < |nodes|
    ensures FreeSum(reserved, nodes) == FreeOn(reserved, nodes[k]) + FreeSum(reserved, Without(nodes, k))
  {
    if k == 0 {
      assert Without(nodes, 0) == nodes[1..];
    } else {
      FreeSumWithout(reserved, nodes[1..], k - 1);
      assert Without(nodes, k) == [nodes[0]] + Without(nodes[1..], k - 1);
    }
  }

  /** Every pick with at least `bound` free appears in `blocks` as often as it was picked. */
  ghost predicate DrawnFrom(reserved: Reserved, picks: seq<Node>, blocks: seq<Block>, bound: real) {
    forall n :: n in picks && FreeOn(reserved, n) >= bound ==>
      multiset(picks)[n] <= multiset(blocks)[(n, FreeOn(reserved, n))]
  }

  lemma {:induction false} WithoutCounts(nodes: seq<Node>, k: nat)
    requires k < |nodes|
    ensures multiset(Without(nodes, k)) == multiset(nodes) - multiset{nodes[k]}
  {
    assert nodes == nodes[..k] + [nodes[k]] + nodes[k + 1..];
  }

  lemma {:induction false} TopBounds(reserved: Reserved, n: Node, picks: seq<Node>, blocks: seq<Block>, bound: real)
    requires |blocks| > 0 && Descending(blocks) && Usable(blocks, bound)
    requires n in picks && DrawnFrom(reserved, picks, blocks, bound)
    ensures FreeOn(reserved, n) <= blocks[0].1
  {
  }

  lemma {:induction false} ConsCount<T>(x: T, xs: seq<T>, y: T)
    ensures multiset([x] + xs)[y] == (if x == y then 1 else 0) + multiset(xs)[y]
  {
    assert multiset([x] + xs) == multiset{x} + multiset(xs);
  }

  /** Blocks as `ByFree` lists them. */
  ghost predicate Ordered(reserved: Reserved, blocks: seq<Block>, bound: real) {
    && Descending(blocks)
    && Usable(blocks, bound)
    && forall i :: 0 <= i < |blocks| ==> blocks[i].1 == FreeOn(reserved, blocks[i].0)
  }

  lemma {:induction false} OrderedTail(reserved: Reserved, blocks: seq<Block>, bound: real)
    requires Ordered(reserved, blocks, bound) && |blocks| > 0
    ensures Ordered(reserved, blocks[1..], bound) && blocks[0].1 >= 0.0
    ensures blocks[0].1 == FreeOn(reserved, blocks[0].0)
  {
  }

  lemma {:induction false} PrefixSum(blocks: seq<Block>, m: nat)
    requires 0 < m <= |blocks|
    ensures SumBy(FreeOf, blocks[..m]) == blocks[0].1 + SumBy(FreeOf, blocks[1..][..m - 1])
  {
    assert blocks[..m][1..] == blocks[1..][..m - 1];
  }

  ghost function PickFirst(n: Node, picks: seq<Node>): (k: nat)
    requires |picks| > 0
    ensures k < |picks| && (n in picks ==> picks[k] == n)
  {
    if n in picks then var j :| 0 <= j < |picks| && picks[j] == n; j else 0
  }

  /** Exchange argument: no `m` picks hold more than the first `m` of the descending blocks. */
  lemma {:induction false} LargestFirstIsBest(reserved: Reserved, picks: seq<Node>, blocks: seq<Block>, m: nat,
                                              bound: real)
    requires |picks| <= m <= |blocks|
    requires Ordered(reserved, blocks, bound) && DrawnFrom(reserved, picks, blocks, bound)
    ensures FreeSum(reserved, picks) <= SumBy(FreeOf, blocks[..m])
    decreases m
  {
    if m == 0 {
    } else {
      OrderedTail(reserved, blocks, bound);
      PrefixSum(blocks, m);
      if |picks| == 0 {
        assert DrawnFrom(reserved, [], blocks[1..], bound);
        LargestFirstIsBest(reserved, [], blocks[1..], m - 1, bound);
      } else {
        var k := PickFirst(blocks[0].0, picks);
        FreeSumWithout(reserved, picks, k);
        TopBounds(reserved, picks[k], picks, blocks, bound);
        DrawnFromRest(reserved, picks, k, blocks, bound);
        LargestFirstIsBest(reserved, Without(picks, k), blocks[1..], m - 1, bound);
      }
    }
  }

  lemma {:induction false} DrawnFromRest(reserved: Reserved, picks: seq<Node>, k: nat, blocks: seq<Block>, bound: real)
    requires k < |picks| && |blocks| > 0 && DrawnFrom(reserved, picks, blocks, bound)
    requires blocks[0].1 == FreeOn(reserved, blocks[0].0)
    requires blocks[0].0 in picks ==> picks[k] == blocks[0].0
    ensures DrawnFrom(reserved, Without(picks, k), blocks[1..], bound)
  {
    WithoutCounts(picks, k);
    var left := Without(picks, k);
    assert blocks == [blocks[0]] + blocks[1..];
    forall n | n in left && FreeOn(reserved, n) >= bound
      ensures multiset(left)[n] <= multiset(blocks[1..])[(n, FreeOn(reserved, n))]
    {
      assert n in multiset(left);
      assert n in multiset(picks);
      ConsCount(blocks[0], blocks[1..], (n, FreeOn(reserved, n)));
    }
  }

  lemma {:induction false} BlocksHead(reserved: Reserved, nodes: seq<Node>, min: real, head: seq<Block>,
                                      tail: seq<Block>)
    requires |nodes| > 0 && tail == Blocks(reserved, nodes[1..], min)
    requires var free := FreeOn(reserved, nodes[0]);
             head == if nodes[0].state == Healthy && free >= min then [(nodes[0], free)] else []
    ensures Blocks(reserved, nodes, min) == head + tail
  {
  }

  lemma {:induction false} BlocksCount(reserved: Reserved, nodes: seq<Node>, min: real, n: Node)
    requires n.state == Healthy && FreeOn(reserved, n) >= min
    ensures multiset(Blocks(reserved, nodes, min))[(n, FreeOn(reserved, n))] == multiset(nodes)[n]
  {
    if |nodes| > 0 {
      var first, rest := nodes[0], nodes[1..];
      var free := FreeOn(reserved, first);
      var head := if first.state == Healthy && free >= min then [(first, free)] else [];
      BlocksCount(reserved, rest, min, n);
      BlocksHead(reserved, nodes, min, head, Blocks(reserved, rest, min));
      assert nodes == [first] + rest;
      ConsCount(first, rest, n);
      HeadCount(head, Blocks(reserved, rest, min), (n, FreeOn(reserved, n)));
    }
  }

  /** A head of at most one element. */
  lemma {:induction false} HeadCount<T>(head: seq<T>, xs: seq<T>, y: T)
    requires |head| <= 1
    ensures multiset(head + xs)[y] == (if head == [y] then 1 else 0) + multiset(xs)[y]
  {
    if |head| == 1 {
      assert head == [head[0]];
      ConsCount(head[0], xs, y);
    } else {
      assert head + xs == xs;
    }
  }

  lemma {:induction false} HealthyPicksAreBlocks(s: State, nodes: seq<Node>, min: real, picks: seq<Node>)
    requires multiset(picks) <= multiset(nodes) && forall n :: n in picks ==> n.state == Healthy
    ensures var blocks := ByFree(s.reserved, nodes, min);
            Ordered(s.reserved, blocks, min) && DrawnFrom(s.reserved, picks, blocks, min)
  {
    ByFreeFacts(s.reserved, nodes, min);
    var blocks := ByFree(s.reserved, nodes, min);
    forall n | n in picks && FreeOn(s.reserved, n) >= min
      ensures multiset(picks)[n] <= multiset(blocks)[(n, FreeOn(s.reserved, n))]
    {
      BlocksCount(s.reserved, nodes, min, n);
    }
    forall i | 0 <= i < |blocks| ensures blocks[i].1 == FreeOn(s.reserved, blocks[i].0) {
      assert blocks[i] in blocks;
    }
  }

  lemma {:induction false} FewestStripes(reserved: Reserved, blocks: seq<Block>, size: real, min: real,
                                         picks: seq<Node>)
    requires 0.0 < size <= SumBy(FreeOf, blocks)
    requires Ordered(reserved, blocks, min) && DrawnFrom(reserved, picks, blocks, min)
    requires FreeSum(reserved, picks) >= size
    ensures |picks| >= |Striped(blocks, size, min).0|
  {
    StripedIsTight(blocks, size, min);
    var k := |Striped(blocks, size, min).0|;
    if |picks| < k {
      LargestFirstIsBest(reserved, picks, blocks, k - 1, min);
    }
  }

  /** A successful `allocate` uses as few segments as any choice of healthy nodes could. */
  lemma {:induction false} FewestSegments(s: State, size: real, nodes: seq<Node>, owner: string, min: real,
                                          id: string, picks: seq<Node>)
    requires Allocate(s, size, nodes, owner, min, id).1.Some?
    requires multiset(picks) <= multiset(nodes) && forall n :: n in picks ==> n.state == Healthy
    requires FreeSum(s.reserved, picks) >= size
    ensures |picks| >= |Allocate(s, size, nodes, owner, min, id).1.value.segments|
  {
    AllocateSucceedsExactly(s, size, nodes, owner, min, id);
    assert size <= SumBy(FreeOf, ByFree(s.reserved, nodes, min)) by {
      ByFreeFacts(s.reserved, nodes, min);
    }
    HealthyPicksAreBlocks(s, nodes, min, picks);
    FewestStripes(s.reserved, ByFree(s.reserved, nodes, min), size, min, picks);
  }
}
