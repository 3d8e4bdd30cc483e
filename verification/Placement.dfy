/** mesh/scheduler: pool filters, node scores, best-node placement and sequential filling. */
module Placement {
  import opened Sorting
  import opened Models

  // ---- Python's string order, used to break score ties ----

  predicate LexLeq(a: string, b: string) {
    if |a| == 0 then true
    else if |b| == 0 then false
    else if a[0] != b[0] then a[0] < b[0]
    else LexLeq(a[1..], b[1..])
  }

  lemma {:induction false} LexTotal(a: string, b: string)
    ensures LexLeq(a, b) || LexLeq(b, a)
    ensures LexLeq(a, b) && LexLeq(b, a) ==> a == b
  {
    if |a| == 0 || |b| == 0 || a[0] != b[0] {
    } else {
      LexTotal(a[1..], b[1..]);
      assert a == [a[0]] + a[1..] && b == [b[0]] + b[1..];
    }
  }

  /** At `k` the strings differ for the first time, and `a` has the smaller character there. */
  ghost predicate FirstLess(a: string, b: string, k: nat) {
    k < |a| && k < |b| && a[..k] == b[..k] && a[k] < b[k]
  }

  /** The order is the dictionary's: a prefix comes first, and otherwise the first difference decides. */
  lemma {:induction false} LexExactly(a: string, b: string)
    ensures LexLeq(a, b) <==> a <= b || exists k: nat :: FirstLess(a, b, k)
  {
    if |a| == 0 || |b| == 0 {
    } else if a[0] != b[0] {
      assert FirstLess(a, b, 0) <==> a[0] < b[0];
      assert forall k: nat :: k > 0 && FirstLess(a, b, k) ==> a[..k][0] == b[..k][0];
    } else {
      LexExactly(a[1..], b[1..]);
      assert a <= b <==> a[1..] <= b[1..];
      FirstLessTail(a, b);
    }
  }

  lemma {:induction false} FirstLessTail(a: string, b: string)
    requires |a| > 0 && |b| > 0 && a[0] == b[0]
    ensures (exists k: nat :: FirstLess(a, b, k)) <==> exists k: nat :: FirstLess(a[1..], b[1..], k)
  {
    if k: nat :| FirstLess(a, b, k) {
      assert a[1..][..k - 1] == a[..k][1..] && b[1..][..k - 1] == b[..k][1..];
      assert FirstLess(a[1..], b[1..], k - 1);
    }
    if k: nat :| FirstLess(a[1..], b[1..], k) {
      assert a[..k + 1] == [a[0]] + a[1..][..k] && b[..k + 1] == [b[0]] + b[1..][..k];
      assert FirstLess(a, b, k + 1);
    }
  }

  lemma {:induction false} LexTransitive(a: string, b: string, c: string)
    requires LexLeq(a, b) && LexLeq(b, c)
    ensures LexLeq(a, c)
  {
    if |a| == 0 || a[0] != b[0] || b[0] != c[0] {
    } else {
      LexTransitive(a[1..], b[1..], c[1..]);
    }
  }

  // ---- pools.py ----

  datatype Router = Router(nightStart: int, nightEnd: int, batteryMin: real)
  {
    predicate NightWindow(hour: int) {
      if nightStart > nightEnd then hour >= nightStart || hour < nightEnd
      else nightStart <= hour < nightEnd
    }

    predicate BatteryOk(n: Node) {
      n.resources.battery.None? || n.resources.battery.value >= batteryMin
    }

    /** Whether the pool lets `n` through, whatever order it returns the nodes in. */
    predicate Admits(pool: Option<ResourcePool>, hour: int, n: Node) {
      match pool
      case None => true
      case Some(NightPool) => NightWindow(hour) && n.preemptible && BatteryOk(n)
      case Some(GpuPool) => n.resources.gpuCount > 0 && n.resources.cuda.Some? && BatteryOk(n)
      case Some(MemoryPool) => BatteryOk(n)
      case Some(CpuPool) => !n.preemptible && BatteryOk(n)
    }

    function EligibleNodes(nodes: seq<Node>, pool: Option<ResourcePool>, hour: int): seq<Node> {
      match pool
      case None => nodes
      case Some(NightPool) =>
        if !NightWindow(hour) then [] else Filter(nodes, (n: Node) => n.preemptible && BatteryOk(n))
      case Some(GpuPool) =>
        Filter(nodes, (n: Node) => n.resources.gpuCount > 0 && n.resources.cuda.Some? && BatteryOk(n))
      case Some(MemoryPool) => Sort(Filter(nodes, (n: Node) => BatteryOk(n)), MoreRam)
      case Some(CpuPool) => Filter(nodes, (n: Node) => !n.preemptible && BatteryOk(n))
    }
  }

  predicate MoreRam(a: Node, b: Node) { a.resources.ramFree >= b.resources.ramFree }

  lemma {:induction false} EligibleMembers(router: Router, nodes: seq<Node>, pool: Option<ResourcePool>, hour: int)
    ensures forall n :: n in router.EligibleNodes(nodes, pool, hour) <==> n in nodes && router.Admits(pool, hour, n)
  {
    match pool
    case None =>
    case Some(NightPool) =>
    case Some(GpuPool) =>
    case Some(MemoryPool) => SortSorts(Filter(nodes, (n: Node) => router.BatteryOk(n)), MoreRam);
    case Some(CpuPool) =>
  }

  lemma {:induction false} FilterAgrees(nodes: seq<Node>, p: Node -> bool, q: Node -> bool)
    requires forall n :: n in nodes ==> p(n) == q(n)
    ensures Filter(nodes, p) == Filter(nodes, q)
  {
    if |nodes| > 0 {
      FilterAgrees(nodes[1..], p, q);
    }
  }

  /**
   * A pool returns its nodes in the order offered, except that the memory pool puts more free memory first and keeps
   * the order among equals.
   */
  lemma {:induction false} EligibleOrder(router: Router, nodes: seq<Node>, pool: Option<ResourcePool>, hour: int,
                                         gb: real)
    ensures var r := router.EligibleNodes(nodes, pool, hour);
            var admitted := Filter(nodes, (n: Node) => router.Admits(pool, hour, n));
            if pool == Some(MemoryPool) then
              && multiset(r) == multiset(admitted)
              && (forall i, j :: 0 <= i < j < |r| ==> r[i].resources.ramFree >= r[j].resources.ramFree)
              && Filter(r, (n: Node) => n.resources.ramFree == gb)
                 == Filter(admitted, (n: Node) => n.resources.ramFree == gb)
            else r == admitted
  {
    var admitted := Filter(nodes, (n: Node) => router.Admits(pool, hour, n));
    match pool
    case None => FilterAll(nodes, (n: Node) => router.Admits(pool, hour, n));
    case Some(NightPool) =>
      if router.NightWindow(hour) {
        FilterAgrees(nodes, (n: Node) => n.preemptible && router.BatteryOk(n),
                     (n: Node) => router.Admits(pool, hour, n));
      } else {
        FilterNone(nodes, (n: Node) => router.Admits(pool, hour, n));
      }
    case Some(GpuPool) =>
      FilterAgrees(nodes, (n: Node) => n.resources.gpuCount > 0 && n.resources.cuda.Some? && router.BatteryOk(n),
                   (n: Node) => router.Admits(pool, hour, n));
    case Some(MemoryPool) =>
      FilterAgrees(nodes, (n: Node) => router.BatteryOk(n), (n: Node) => router.Admits(pool, hour, n));
      SortSorts(admitted, MoreRam);
      SortIsStable(admitted, MoreRam, (n: Node) => n.resources.ramFree == gb);
    case Some(CpuPool) =>
      FilterAgrees(nodes, (n: Node) => !n.preemptible && router.BatteryOk(n),
                   (n: Node) => router.Admits(pool, hour, n));
  }

  lemma {:induction false} FilterNone(nodes: seq<Node>, keep: Node -> bool)
    requires forall n :: n in nodes ==> !keep(n)
    ensures Filter(nodes, keep) == []
  {
    if |nodes| > 0 {
      FilterNone(nodes[1..], keep);
    }
  }

  lemma {:induction false} FilterAll(nodes: seq<Node>, keep: Node -> bool)
    requires forall n :: n in nodes ==> keep(n)
    ensures Filter(nodes, keep) == nodes
  {
    if |nodes| > 0 {
      FilterAll(nodes[1..], keep);
    }
  }

  // ---- scoring.py ----

  datatype Weights = Weights(cpu: real, memory: real, gpu: real, reliability: real, network: real)

  /** The nearest whole number, ties to the even one. */
  function RoundHalfEven(x: real): int {
    var low := x.Floor;
    var rest := x - low as real;
    if rest > 0.5 || (rest == 0.5 && low % 2 == 1) then low + 1 else low
  }

  /** Python's `round(x, 6)` on exact values. */
  function Round6(x: real): real { RoundHalfEven(x * 1000000.0) as real / 1000000.0 }

  /** What the five weights apply to. */
  datatype Parts = Parts(cpu: real, memory: real, gpu: real, reliability: real, network: real)

  function PartsOf(n: Node, req: Requirements): Parts {
    var r := n.resources;
    Parts(
      if r.cpuFree >= req.cpu then r.CpuComponent() else 0.0,
      if r.ramFree >= req.ram then r.MemoryComponent() else 0.0,
      if req.gpuCount > 0 then (if r.gpuCount >= req.gpuCount then r.GpuComponent() else 0.0) else 1.0,
      n.reliability,
      Min(1.0, r.network / Max(req.network, 1.0)))
  }

  function Weighted(w: Weights, p: Parts): real {
    w.cpu * p.cpu + w.memory * p.memory + w.gpu * p.gpu + w.reliability * p.reliability + w.network * p.network
  }

  function Score(w: Weights, n: Node, req: Requirements): real { Round6(Weighted(w, PartsOf(n, req))) }

  lemma {:induction false} RoundingKeepsOrder(x: real, y: real)
    requires x <= y
    ensures RoundHalfEven(x) <= RoundHalfEven(y)
    ensures -0.5 <= RoundHalfEven(x) as real - x <= 0.5
  {
  }

  /** Rounding gives the nearest whole number of millionths, and the even one of two that are equally near. */
  lemma {:induction false} RoundsToNearest(x: real, k: int)
    ensures var rest := x * 1000000.0 - k as real;
            Round6(x) == k as real / 1000000.0 <==>
              -0.5 <= rest <= 0.5 && (rest == -0.5 || rest == 0.5 ==> k % 2 == 0)
  {
    var y := x * 1000000.0;
    var low := y.Floor;
    assert low as real <= y < low as real + 1.0;
    if -0.5 <= y - k as real <= 0.5 {
      assert k == low || k == low + 1;
    }
  }

  /** The night window counts hours forward from its start, around midnight if need be. */
  lemma {:induction false} NightWindowIsCyclic(router: Router, hour: int)
    requires 0 <= router.nightStart < 24 && 0 <= router.nightEnd < 24 && 0 <= hour < 24
    ensures router.NightWindow(hour) <==>
      (hour - router.nightStart) % 24 < (router.nightEnd - router.nightStart) % 24
  {
    CyclicHours(hour - router.nightStart);
    CyclicHours(router.nightEnd - router.nightStart);
  }

  lemma {:induction false} CyclicHours(d: int)
    requires -24 < d < 24
    ensures d % 24 == if d >= 0 then d else d + 24
  {
  }

  /**
   * The score from the node's own figures: the free share of its cores and of its memory if there is enough of
   * either, one for a GPU with free memory or when none is asked for, its reliability, and its share of the network
   * rate, each with its weight, to six digits.
   */
  lemma {:induction false} ScoreInFields(w: Weights, n: Node, req: Requirements, p: Parts, sum: real)
    requires var r := n.resources;
             && p.cpu == (if r.cpuFree < req.cpu || r.cpuTotal == 0 then 0.0
                          else Min(1.0, r.cpuFree / r.cpuTotal as real))
             && p.memory == (if r.ramFree < req.ram || r.ramTotal == 0.0 then 0.0 else Min(1.0, r.ramFree / r.ramTotal))
             && p.gpu == (if req.gpuCount <= 0 || (r.gpuCount >= req.gpuCount && r.vramFree > 0.0) then 1.0 else 0.0)
             && p.reliability == n.reliability
             && p.network == Min(1.0, r.network / (if req.network > 1.0 then req.network else 1.0))
    requires sum == w.cpu * p.cpu + w.memory * p.memory + w.gpu * p.gpu + w.reliability * p.reliability
                    + w.network * p.network
    ensures Score(w, n, req) == Round6(sum)
  {
    assert PartsOf(n, req) == p;
    WeightedSum(w, p);
  }

  lemma {:induction false} WeightedSum(w: Weights, p: Parts)
    ensures Weighted(w, p) == w.cpu * p.cpu + w.memory * p.memory + w.gpu * p.gpu + w.reliability * p.reliability
                              + w.network * p.network
  {
  }

  lemma {:induction false} ProductKeepsOrder(w: real, a: real, b: real)
    requires w >= 0.0 && a <= b
    ensures w * a <= w * b
  {
    assert w * (b - a) >= 0.0;
  }

  ghost predicate NonNegative(w: Weights) {
    w.cpu >= 0.0 && w.memory >= 0.0 && w.gpu >= 0.0 && w.reliability >= 0.0 && w.network >= 0.0
  }

  ghost predicate AtLeast(q: Parts, p: Parts) {
    p.cpu <= q.cpu && p.memory <= q.memory && p.gpu <= q.gpu && p.reliability <= q.reliability && p.network <= q.network
  }

  lemma {:induction false} WeightedKeepsOrder(w: Weights, p: Parts, q: Parts)
    requires NonNegative(w) && AtLeast(q, p)
    ensures Weighted(w, p) <= Weighted(w, q)
  {
    ProductKeepsOrder(w.cpu, p.cpu, q.cpu);
    ProductKeepsOrder(w.memory, p.memory, q.memory);
    ProductKeepsOrder(w.gpu, p.gpu, q.gpu);
    ProductKeepsOrder(w.reliability, p.reliability, q.reliability);
    ProductKeepsOrder(w.network, p.network, q.network);
  }

  /**
   * A node at least as good in every part never scores lower, and rounding moves no score by more than half a
   * millionth.
   */
  lemma {:induction false} BetterNodeScoresNoLess(w: Weights, n: Node, m: Node, req: Requirements)
    requires NonNegative(w) && AtLeast(PartsOf(m, req), PartsOf(n, req))
    ensures Score(w, n, req) <= Score(w, m, req)
    ensures -0.0000005 <= Score(w, n, req) - Weighted(w, PartsOf(n, req)) <= 0.0000005
  {
    var p, q := PartsOf(n, req), PartsOf(m, req);
    WeightedKeepsOrder(w, p, q);
    RoundingKeepsOrder(Weighted(w, p) * 1000000.0, Weighted(w, q) * 1000000.0);
  }

  // ---- placement.py: place ----

  /** The placement engine's configuration and the hour its pool router reads from the clock. */
  datatype Engine = Engine(weights: Weights, router: Router, hour: int)

  datatype Placed = Placed(task: TaskId, node: NodeId, score: real)

  type Scored = (Node, real)

  predicate Better(a: Scored, b: Scored) {
    a.1 > b.1 || (a.1 == b.1 && LexLeq(a.0.id, b.0.id))
  }

  function WithScores(e: Engine, req: Requirements, nodes: seq<Node>): (r: seq<Scored>)
    ensures forall s :: s in r <==> s.0 in nodes && s.1 == Score(e.weights, s.0, req)
  {
    if |nodes| == 0 then []
    else [(nodes[0], Score(e.weights, nodes[0], req))] + WithScores(e, req, nodes[1..])
  }

  function Place(e: Engine, t: Task, nodes: seq<Node>): Option<Placed> {
    var eligible := e.router.EligibleNodes(nodes, t.pool, e.hour);
    var candidates := Filter(eligible, (n: Node) => n.Meets(t.req));
    var scored := Sort(WithScores(e, t.req, candidates), Better);
    if |scored| == 0 then None
    else if scored[0].1 <= 0.0 then None
    else Some(Placed(t.id, scored[0].0.id, scored[0].1))
  }

  /** A node `place` may pick: the pool lets it through, it meets the requirements, its score is positive. */
  predicate Acceptable(e: Engine, t: Task, n: Node) {
    && e.router.Admits(t.pool, e.hour, n)
    && n.Meets(t.req)
    && Score(e.weights, n, t.req) > 0.0
  }

  ghost predicate IsBest(e: Engine, t: Task, nodes: seq<Node>, n: Node) {
    && n in nodes
    && Acceptable(e, t, n)
    && forall m :: m in nodes && Acceptable(e, t, m) ==>
         var sn, sm := Score(e.weights, n, t.req), Score(e.weights, m, t.req);
         sn > sm || (sn == sm && LexLeq(n.id, m.id))
  }

  lemma {:induction false} BetterIsPreorder()
    ensures TotalPreorder(Better)
  {
    forall x: Scored, y: Scored ensures Better(x, y) || Better(y, x) {
      LexTotal(x.0.id, y.0.id);
    }
    forall x: Scored, y: Scored, z: Scored | Better(x, y) && Better(y, z) ensures Better(x, z) {
      if x.1 == y.1 == z.1 {
        LexTransitive(x.0.id, y.0.id, z.0.id);
      }
    }
  }

  /** `place` fails exactly when no node is acceptable, and otherwise returns a best one. */
  lemma {:induction false} PlaceIsMaximal(e: Engine, t: Task, nodes: seq<Node>)
    ensures Place(e, t, nodes).None? <==> forall n :: n in nodes ==> !Acceptable(e, t, n)
    ensures Place(e, t, nodes).Some? ==>
      var p := Place(e, t, nodes).value;
      && p.task == t.id
      && exists n :: IsBest(e, t, nodes, n) && p.node == n.id && p.score == Score(e.weights, n, t.req)
  {
    var eligible := e.router.EligibleNodes(nodes, t.pool, e.hour);
    EligibleMembers(e.router, nodes, t.pool, e.hour);
    var candidates := Filter(eligible, (n: Node) => n.Meets(t.req));
    var listed := WithScores(e, t.req, candidates);
    BetterIsPreorder();
    SortSorts(listed, Better);
    var scored := Sort(listed, Better);
    forall n | n in candidates ensures (n, Score(e.weights, n, t.req)) in scored {
      assert (n, Score(e.weights, n, t.req)) in listed;
    }
    if |scored| > 0 {
      var best := scored[0];
      assert best in listed;
      forall m | m in nodes && Acceptable(e, t, m)
        ensures Better(best, (m, Score(e.weights, m, t.req)))
      {
        var s := (m, Score(e.weights, m, t.req));
        assert s in scored;
        var k :| 0 <= k < |scored| && scored[k] == s;
        LexTotal(m.id, m.id);
      }
      if best.1 > 0.0 {
        assert IsBest(e, t, nodes, best.0);
      }
    }
  }

  /** In its own figures, the node covers the requirements. */
  ghost predicate Suffices(n: Node, req: Requirements) {
    && n.state == Healthy
    && n.resources.cpuFree >= req.cpu && n.resources.ramFree >= req.ram
    && (req.gpuCount > 0 ==>
          && n.resources.gpuCount >= req.gpuCount
          && (req.vram > 0.0 ==> n.resources.vramFree >= req.vram)
          && forall have: real, want: real ::
               n.resources.cuda == Some(Version(have)) && req.cuda == Some(Version(want)) ==> have >= want)
    && (req.network > 0.0 ==> n.resources.network >= req.network)
    && (forall have: real, want: real ::
          n.resources.battery == Some(have) && req.minBattery == Some(want) ==> have >= want)
  }

  /** In its own figures, the node belongs to the pool at that hour. */
  ghost predicate Joins(router: Router, pool: Option<ResourcePool>, hour: int, n: Node) {
    && (pool.Some? ==> forall have: real :: n.resources.battery == Some(have) ==> have >= router.batteryMin)
    && (pool == Some(CpuPool) ==> !n.preemptible)
    && (pool == Some(NightPool) ==> n.preemptible && router.NightWindow(hour))
    && (pool == Some(GpuPool) ==> n.resources.gpuCount > 0 && n.resources.cuda != None)
  }

  /**
   * In the figures of nodes and tasks: `place` finds a node exactly if one of those offered belongs to the task's
   * pool, covers its requirements and has a positive score, and the node it finds is such a node.
   */
  lemma {:induction false} PlaceInFields(e: Engine, t: Task, nodes: seq<Node>)
    ensures Place(e, t, nodes).Some? <==>
      exists n :: && n in nodes && Joins(e.router, t.pool, e.hour, n) && Suffices(n, t.req)
                  && Score(e.weights, n, t.req) > 0.0
    ensures Place(e, t, nodes).Some? ==>
      exists n :: && n in nodes && n.id == Place(e, t, nodes).value.node
                  && Joins(e.router, t.pool, e.hour, n) && Suffices(n, t.req) && Score(e.weights, n, t.req) > 0.0
  {
    PlaceIsMaximal(e, t, nodes);
    forall n
      ensures Acceptable(e, t, n) <==>
        Joins(e.router, t.pool, e.hour, n) && Suffices(n, t.req) && Score(e.weights, n, t.req) > 0.0
    {
      JoinsExactly(e.router, t.pool, e.hour, n);
      SufficesExactly(n, t.req);
    }
  }

  lemma {:induction false} SufficesExactly(n: Node, req: Requirements)
    ensures n.Meets(req) <==> Suffices(n, req)
  {
  }

  lemma {:induction false} JoinsExactly(router: Router, pool: Option<ResourcePool>, hour: int, n: Node)
    ensures router.Admits(pool, hour, n) <==> Joins(router, pool, hour, n)
  {
  }

  /** With unique ids the answer depends only on which nodes are offered, not on their order. */
  lemma {:induction false} PlaceIsOrderIndependent(e: Engine, t: Task, a: seq<Node>, b: seq<Node>)
    requires UniqueNodes(a) && multiset(a) == multiset(b)
    ensures Place(e, t, a) == Place(e, t, b)
  {
    PlaceIsMaximal(e, t, a);
    PlaceIsMaximal(e, t, b);
    forall n ensures n in a <==> n in b {
      assert n in multiset(a) <==> n in multiset(b);
    }
    if Place(e, t, a).Some? {
      var p, q := Place(e, t, a).value, Place(e, t, b).value;
      var n :| IsBest(e, t, a, n) && p.node == n.id && p.score == Score(e.weights, n, t.req);
      var m :| IsBest(e, t, b, m) && q.node == m.id && q.score == Score(e.weights, m, t.req);
      LexTotal(n.id, m.id);
    }
  }
}
