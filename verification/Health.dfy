/** mesh/health/heartbeat.py: the heartbeat timeout machine and its change notifications. */
module Health {
  import opened Sorting
  import opened Models

  type PositiveReal = r: real | r > 0.0 witness 1.0

  /** `known` lists the keys of `last` (the last heartbeat times) in insertion order. */
  datatype Tracker = Tracker(
    interval: PositiveReal,
    suspectedAfter: int,
    deadAfter: int,
    known: seq<NodeId>,
    last: map<NodeId, real>,
    states: map<NodeId, NodeState>,
    explicitDead: set<NodeId>)

  function StateOf(t: Tracker, id: NodeId): NodeState {
    if id in t.states then t.states[id] else Offline
  }

  function Beat(t: Tracker, id: NodeId, now: real): Tracker {
    t.(known := if id in t.last then t.known else t.known + [id],
       last := t.last[id := now],
       states := t.states[id := Healthy],
       explicitDead := t.explicitDead - {id})
  }

  function Missed(t: Tracker, id: NodeId, now: real): int {
    if id !in t.last then t.deadAfter else ((now - t.last[id]) / t.interval).Floor
  }

  /** `evaluate`: the node's state by explicit mark or by timeout, which it also stores. */
  function Evaluate(t: Tracker, id: NodeId, now: real): (Tracker, NodeState) {
    if id in t.explicitDead then (t.(states := t.states[id := Dead]), Dead)
    else if id !in t.last then (t, Dead)
    else
      var missed := Missed(t, id, now);
      var state := if missed >= t.deadAfter then Dead
                   else if missed >= t.suspectedAfter then Suspected
                   else Healthy;
      (t.(states := t.states[id := state]), state)
  }

  /** The trackers differ at most in the states they store. */
  ghost predicate SameHistory(a: Tracker, b: Tracker) {
    && a.interval == b.interval && a.suspectedAfter == b.suspectedAfter && a.deadAfter == b.deadAfter
    && a.last == b.last && a.known == b.known && a.explicitDead == b.explicitDead
  }

  lemma {:induction false} EvaluateOnlyStates(t: Tracker, id: NodeId, now: real)
    ensures SameHistory(t, Evaluate(t, id, now).0)
    ensures forall n :: n != id ==> StateOf(Evaluate(t, id, now).0, n) == StateOf(t, n)
    ensures id in t.last || id in t.explicitDead ==> StateOf(Evaluate(t, id, now).0, id) == Evaluate(t, id, now).1
  {
  }

  lemma {:induction false} SameAnswer(a: Tracker, b: Tracker, id: NodeId, now: real)
    requires SameHistory(a, b)
    ensures Evaluate(a, id, now).1 == Evaluate(b, id, now).1
  {
  }

  function MarkDead(t: Tracker, id: NodeId): Tracker {
    t.(states := t.states[id := Dead], explicitDead := t.explicitDead + {id})
  }

  /** Elapsed time reaches a number of intervals exactly when the floored count does. */
  lemma {:induction false} MissedReaches(t: Tracker, id: NodeId, now: real, k: int)
    requires id in t.last
    ensures Missed(t, id, now) >= k <==> now - t.last[id] >= t.interval * k as real
  {
    var elapsed, interval := now - t.last[id], t.interval;
    var q := elapsed / interval;
    assert q * interval == elapsed;
    if q >= k as real {
      assert elapsed - interval * k as real == interval * (q - k as real);
    } else {
      assert interval * (k as real - q) > 0.0;
    }
  }

  /** The machine's thresholds in time: dead and suspected begin exactly at their number of intervals. */
  lemma {:induction false} EvaluateExactly(t: Tracker, id: NodeId, now: real)
    requires id in t.last && id !in t.explicitDead
    ensures var state := Evaluate(t, id, now).1;
            var elapsed := now - t.last[id];
            && (state == Dead <==> elapsed >= t.interval * t.deadAfter as real)
            && (state == Suspected <==>
                  elapsed < t.interval * t.deadAfter as real && elapsed >= t.interval * t.suspectedAfter as real)
            && (state == Dead || state == Suspected || state == Healthy)
            && StateOf(Evaluate(t, id, now).0, id) == state
  {
    MissedReaches(t, id, now, t.deadAfter);
    MissedReaches(t, id, now, t.suspectedAfter);
  }

  // ---- the registry: a tracker and the changes its callbacks are told ----

  datatype Change = Change(node: NodeId, was: NodeState, state: NodeState)

  datatype Registry = Registry(tracker: Tracker, log: seq<Change>)

  function Noted(log: seq<Change>, id: NodeId, was: NodeState, state: NodeState): seq<Change> {
    if was != state then log + [Change(id, was, state)] else log
  }

  function RecordHeartbeat(r: Registry, id: NodeId, now: real): Registry {
    Registry(Beat(r.tracker, id, now), Noted(r.log, id, StateOf(r.tracker, id), Healthy))
  }

  function EvaluateOne(r: Registry, id: NodeId, now: real): Registry {
    var (t, state) := Evaluate(r.tracker, id, now);
    Registry(t, Noted(r.log, id, StateOf(r.tracker, id), state))
  }

  function EvaluateEach(r: Registry, ids: seq<NodeId>, now: real): Registry
    decreases |ids|
  {
    if |ids| == 0 then r else EvaluateEach(EvaluateOne(r, ids[0], now), ids[1..], now)
  }

  function EvaluateAll(r: Registry, now: real): Registry { EvaluateEach(r, r.tracker.known, now) }

  function ForceState(r: Registry, id: NodeId, state: NodeState): Registry {
    var t := if state == Dead then MarkDead(r.tracker, id)
             else r.tracker.(states := r.tracker.states[id := state],
                             explicitDead := r.tracker.explicitDead - {id});
    Registry(t, Noted(r.log, id, StateOf(r.tracker, id), state))
  }

  /** `get_state` reads by evaluating, which stores the answer without telling anyone. */
  function GetState(r: Registry, id: NodeId, now: real): Registry {
    r.(tracker := Evaluate(r.tracker, id, now).0)
  }

  // ---- what heartbeats, marks and evaluations leave behind ----

  /**
   * A heartbeat makes the node healthy and lifts its mark: from then on its state goes by the time since that
   * heartbeat alone. A node heard of for the first time is listed last; other nodes are as they were.
   */
  lemma {:induction false} BeatRevives(t: Tracker, id: NodeId, now: real, later: real)
    ensures var r := Beat(t, id, now);
            && StateOf(r, id) == Healthy && id !in r.explicitDead
            && (Evaluate(r, id, later).1 == Dead <==> later - now >= t.interval * t.deadAfter as real)
            && (Evaluate(r, id, later).1 == Suspected <==>
                  && later - now < t.interval * t.deadAfter as real
                  && later - now >= t.interval * t.suspectedAfter as real)
            && r.known == (if id in t.last then t.known else t.known + [id])
            && (forall o :: o in r.last <==> o in t.last || o == id)
            && (forall o :: o != id ==>
                  StateOf(r, o) == StateOf(t, o) && Evaluate(r, o, later).1 == Evaluate(t, o, later).1)
  {
    EvaluateExactly(Beat(t, id, now), id, later);
  }

  /** A marked node is found dead at any time, and a node never heard of as well, without its state being stored. */
  lemma {:induction false} MarkedOrUnknown(t: Tracker, id: NodeId, now: real, o: NodeId)
    ensures var r := MarkDead(t, id);
            && StateOf(r, id) == Dead && Evaluate(r, id, now) == (r, Dead)
            && (o != id ==> StateOf(r, o) == StateOf(t, o) && Evaluate(r, o, now).1 == Evaluate(t, o, now).1)
            && r.last == t.last && r.known == t.known
    ensures id !in t.last ==> Missed(t, id, now) == t.deadAfter
    ensures id !in t.last && id !in t.explicitDead ==> Evaluate(t, id, now) == (t, Dead)
  {
    var r := MarkDead(t, id);
    assert r.states[id := Dead] == r.states;
  }

  /**
   * A forced state is stored and told if it is new. DEAD is found at any later time until a heartbeat; any other
   * state lifts the mark, so that the node's state goes by its heartbeats again.
   */
  lemma {:induction false} ForcedState(r: Registry, id: NodeId, state: NodeState, now: real)
    ensures var f := ForceState(r, id, state);
            && StateOf(f.tracker, id) == state
            && (id in f.tracker.explicitDead <==> state == Dead)
            && (state == Dead ==> Evaluate(f.tracker, id, now).1 == Dead)
            && (state != Dead && id in r.tracker.last ==>
                  (Evaluate(f.tracker, id, now).1 == Dead <==>
                     now - r.tracker.last[id] >= r.tracker.interval * r.tracker.deadAfter as real))
            && (forall o :: o != id ==>
                  && StateOf(f.tracker, o) == StateOf(r.tracker, o)
                  && (o in f.tracker.explicitDead <==> o in r.tracker.explicitDead))
            && f.tracker.last == r.tracker.last && f.tracker.known == r.tracker.known
            && f.log == r.log
                 + (if StateOf(r.tracker, id) == state then [] else [Change(id, StateOf(r.tracker, id), state)])
  {
    assert r.log + [] == r.log;
    if state != Dead && id in r.tracker.last {
      EvaluateExactly(ForceState(r, id, state).tracker, id, now);
    }
  }

  /** The first heartbeat of a node is told as a change from OFFLINE, and a repeated one is not told. */
  lemma {:induction false} HeartbeatTold(r: Registry, id: NodeId, now: real)
    ensures var was := if id in r.tracker.states then r.tracker.states[id] else Offline;
            RecordHeartbeat(r, id, now).log == r.log + (if was == Healthy then [] else [Change(id, was, Healthy)])
  {
    assert r.log + [] == r.log;
  }

  /** The entries of the log about `id`, in order. */
  function Entries(log: seq<Change>, id: NodeId): seq<Change> { Filter(log, (c: Change) => c.node == id) }

  lemma {:induction false} EntriesSnoc(log: seq<Change>, c: Change, id: NodeId)
    ensures Entries(log + [c], id) == Entries(log, id) + (if c.node == id then [c] else [])
  {
    FilterAppend(log, [c], (x: Change) => x.node == id);
    assert [c][1..] == [];
  }

  /**
   * A pass over distinct nodes stores for each of them what it is found to be, and tells each change once; nodes
   * outside the pass keep their state and are not mentioned.
   */
  lemma {:induction false} PassStores(r: Registry, ids: seq<NodeId>, now: real, id: NodeId)
    requires Distinct(ids) && forall k :: 0 <= k < |ids| ==> ids[k] in r.tracker.last
    ensures var q := EvaluateEach(r, ids, now);
            var was, state := StateOf(r.tracker, id), if id in ids then Evaluate(r.tracker, id, now).1
                                                        else StateOf(r.tracker, id);
            && SameHistory(r.tracker, q.tracker)
            && StateOf(q.tracker, id) == state
            && Entries(q.log, id) == Entries(r.log, id) + (if was == state then [] else [Change(id, was, state)])
    decreases |ids|
  {
    if |ids| == 0 {
      assert Entries(r.log, id) + [] == Entries(r.log, id);
    } else {
      var head := ids[0];
      var r1 := EvaluateOne(r, head, now);
      EvaluateOnlyStates(r.tracker, head, now);
      SameAnswer(r.tracker, r1.tracker, id, now);
      HeadTold(r, head, now, id);
      PassStores(r1, ids[1..], now, id);
      assert id in ids <==> id == head || id in ids[1..];
    }
  }

  /** The known nodes are those heard of, each once. */
  ghost predicate KnownAreLast(t: Tracker) {
    Distinct(t.known) && forall o :: o in t.known <==> o in t.last
  }

  /** `evaluate_all` does that for exactly the nodes that were heard of. */
  lemma {:induction false} EvaluateAllStores(r: Registry, now: real, id: NodeId)
    requires KnownAreLast(r.tracker)
    ensures var q := EvaluateAll(r, now);
            var was, state := StateOf(r.tracker, id),
              if id in r.tracker.last then Evaluate(r.tracker, id, now).1 else StateOf(r.tracker, id);
            && SameHistory(r.tracker, q.tracker)
            && StateOf(q.tracker, id) == state
            && Entries(q.log, id) == Entries(r.log, id) + (if was == state then [] else [Change(id, was, state)])
  {
    forall k | 0 <= k < |r.tracker.known| ensures r.tracker.known[k] in r.tracker.last {
      assert r.tracker.known[k] in r.tracker.known;
    }
    PassStores(r, r.tracker.known, now, id);
  }

  lemma {:induction false} HeadTold(r: Registry, head: NodeId, now: real, id: NodeId)
    ensures var was, state := StateOf(r.tracker, head), Evaluate(r.tracker, head, now).1;
            Entries(EvaluateOne(r, head, now).log, id) ==
              Entries(r.log, id) + (if head == id && was != state then [Change(head, was, state)] else [])
  {
    var was, state := StateOf(r.tracker, head), Evaluate(r.tracker, head, now).1;
    EntriesSnoc(r.log, Change(head, was, state), id);
    assert Entries(r.log, id) + [] == Entries(r.log, id);
  }

  class HeartbeatTracker {
    const interval: PositiveReal
    const suspectedAfter: int
    const deadAfter: int
    var known: seq<NodeId>
    var last: map<NodeId, real>
    var states: map<NodeId, NodeState>
    var explicitDead: set<NodeId>

    function View(): Tracker
      reads this
    {
      Tracker(interval, suspectedAfter, deadAfter, known, last, states, explicitDead)
    }

    constructor (interval: PositiveReal, suspectedAfter: int, deadAfter: int)
      ensures View() == Tracker(interval, suspectedAfter, deadAfter, [], map[], map[], {})
    {
      this.interval, this.suspectedAfter, this.deadAfter := interval, suspectedAfter, deadAfter;
      known, last, states, explicitDead := [], map[], map[], {};
    }

    method RecordHeartbeat(id: NodeId, now: real)
      modifies this
      ensures View() == Beat(old(View()), id, now)
    {
      if id !in last {
        known := known + [id];
      }
      last := last[id := now];
      states := states[id := Healthy];
      explicitDead := explicitDead - {id};
    }

    method EvaluateNode(id: NodeId, now: real) returns (state: NodeState)
      modifies this
      ensures (View(), state) == Evaluate(old(View()), id, now)
    {
      if id in explicitDead {
        states := states[id := Dead];
        return Dead;
      }
      if id !in last {
        return Dead;
      }
      var missed := Missed(View(), id, now);
      if missed >= deadAfter {
        state := Dead;
      } else if missed >= suspectedAfter {
        state := Suspected;
      } else {
        state := Healthy;
      }
      states := states[id := state];
    }

    method MarkNodeDead(id: NodeId)
      modifies this
      ensures View() == MarkDead(old(View()), id)
    {
      states := states[id := Dead];
      explicitDead := explicitDead + {id};
    }
  }

  /** The registry with one callback, which records what it is told. */
  class NodeHealthRegistry {
    const tracker: HeartbeatTracker
    var log: seq<Change>

    function View(): Registry
      reads this, tracker
    {
      Registry(tracker.View(), log)
    }

    constructor (tracker: HeartbeatTracker)
      ensures this.tracker == tracker && View() == Registry(tracker.View(), [])
    {
      this.tracker := tracker;
      log := [];
    }

    method Notify(id: NodeId, was: NodeState, state: NodeState)
      modifies this
      ensures log == Noted(old(log), id, was, state)
    {
      if was != state {
        log := log + [Change(id, was, state)];
      }
    }

    method Record(id: NodeId, now: real)
      modifies this, tracker
      ensures View() == RecordHeartbeat(old(View()), id, now)
    {
      var was := StateOf(tracker.View(), id);
      tracker.RecordHeartbeat(id, now);
      Notify(id, was, Healthy);
    }

    method EvaluateAndNotify(id: NodeId, now: real) returns (state: NodeState)
      modifies this, tracker
      ensures View() == EvaluateOne(old(View()), id, now)
      ensures state == Evaluate(old(View()).tracker, id, now).1
    {
      var was := StateOf(tracker.View(), id);
      state := tracker.EvaluateNode(id, now);
      Notify(id, was, state);
    }

    method EvaluateAllNodes(now: real) returns (results: map<NodeId, NodeState>)
      modifies this, tracker
      ensures View() == EvaluateAll(old(View()), now)
      ensures forall id :: id in results <==> id in old(tracker.known)
      ensures forall id :: id in results ==> results[id] == Evaluate(old(View()).tracker, id, now).1
    {
      var ids := tracker.known;
      results := map[];
      ghost var r := View();
      for i := 0 to |ids|
        invariant EvaluateEach(View(), ids[i..], now) == EvaluateAll(r, now)
        invariant SameHistory(r.tracker, View().tracker)
        invariant forall id :: id in results <==> id in ids[..i]
        invariant forall id :: id in results ==> results[id] == Evaluate(r.tracker, id, now).1
      {
        assert ids[i..][1..] == ids[i + 1..] && ids[..i + 1] == ids[..i] + [ids[i]];
        EvaluateOnlyStates(View().tracker, ids[i], now);
        SameAnswer(r.tracker, View().tracker, ids[i], now);
        var state := EvaluateAndNotify(ids[i], now);
        results := results[ids[i] := state];
      }
      assert ids[..|ids|] == ids;
    }

    method Force(id: NodeId, state: NodeState)
      modifies this, tracker
      ensures View() == ForceState(old(View()), id, state)
    {
      var was := StateOf(tracker.View(), id);
      if state == Dead {
        tracker.MarkNodeDead(id);
      } else {
        tracker.states := tracker.states[id := state];
        tracker.explicitDead := tracker.explicitDead - {id};
      }
      Notify(id, was, state);
    }
  }

  // ---- the notification log is faithful ----

  /** The state of `id` according to the log, starting from the baseline states. */
  function Replay(base: Tracker, log: seq<Change>, id: NodeId): NodeState {
    if |log| == 0 then StateOf(base, id)
    else if log[|log| - 1].node == id then log[|log| - 1].state
    else Replay(base, log[..|log| - 1], id)
  }

  /**
   * Replaying the log gives the tracker's states; each entry is a real change and starts where the log left its
   * node.
   */
  ghost predicate Faithful(base: Tracker, r: Registry) {
    && (forall id :: Replay(base, r.log, id) == StateOf(r.tracker, id))
    && (forall i :: 0 <= i < |r.log| ==>
          r.log[i].was != r.log[i].state && r.log[i].was == Replay(base, r.log[..i], r.log[i].node))
  }

  /** An operation that sets one node's state and notes the change keeps the log faithful. */
  lemma {:induction false} NotedIsFaithful(base: Tracker, r: Registry, r': Registry, id: NodeId, state: NodeState)
    requires Faithful(base, r)
    requires r'.log == Noted(r.log, id, StateOf(r.tracker, id), state)
    requires forall n :: StateOf(r'.tracker, n) == if n == id then state else StateOf(r.tracker, n)
    ensures Faithful(base, r')
  {
    var was := StateOf(r.tracker, id);
    if was != state {
      assert r'.log[..|r.log|] == r.log;
      forall i | 0 <= i < |r'.log|
        ensures r'.log[i].was != r'.log[i].state && r'.log[i].was == Replay(base, r'.log[..i], r'.log[i].node)
      {
        assert i < |r.log| ==> r'.log[..i] == r.log[..i];
      }
    }
  }

  /** Every known node is in the tracker's table; `evaluate_all` visits only such nodes. */
  ghost predicate KnownInLast(t: Tracker) {
    forall i :: 0 <= i < |t.known| ==> t.known[i] in t.last
  }

  lemma {:induction false} EvaluateEachFaithful(base: Tracker, r: Registry, ids: seq<NodeId>, now: real)
    requires Faithful(base, r) && KnownInLast(r.tracker)
    requires forall i :: 0 <= i < |ids| ==> ids[i] in r.tracker.last
    ensures Faithful(base, EvaluateEach(r, ids, now)) && KnownInLast(EvaluateEach(r, ids, now).tracker)
    decreases |ids|
  {
    if |ids| == 0 {
    } else {
      var r' := EvaluateOne(r, ids[0], now);
      NotedIsFaithful(base, r, r', ids[0], Evaluate(r.tracker, ids[0], now).1);
      EvaluateEachFaithful(base, r', ids[1..], now);
    }
  }

  lemma {:induction false} EvaluateEachHistory(r: Registry, ids: seq<NodeId>, now: real)
    ensures SameHistory(r.tracker, EvaluateEach(r, ids, now).tracker)
    decreases |ids|
  {
    if |ids| > 0 {
      EvaluateEachHistory(EvaluateOne(r, ids[0], now), ids[1..], now);
    }
  }

  /** In every run the known nodes stay those heard of, each once, in the order of their first heartbeats. */
  lemma {:induction false} KnownOverRuns(r: Registry, ops: seq<(HealthOp, real)>)
    requires KnownAreLast(r.tracker)
    ensures KnownAreLast(HealthRun(r, ops).tracker) && r.tracker.known <= HealthRun(r, ops).tracker.known
    decreases |ops|
  {
    if |ops| > 0 {
      var (op, now) := ops[0];
      if op.OpEvaluate? {
        EvaluateEachHistory(r, r.tracker.known, now);
      }
      KnownOverRuns(HealthStep(r, op, now), ops[1..]);
    }
  }

  datatype HealthOp = OpRecord(id: NodeId) | OpEvaluate | OpForce(id: NodeId, state: NodeState)

  function HealthStep(r: Registry, op: HealthOp, now: real): Registry {
    match op
    case OpRecord(id) => RecordHeartbeat(r, id, now)
    case OpEvaluate => EvaluateAll(r, now)
    case OpForce(id, state) => ForceState(r, id, state)
  }

  function HealthRun(r: Registry, ops: seq<(HealthOp, real)>): Registry
    decreases |ops|
  {
    if |ops| == 0 then r else HealthRun(HealthStep(r, ops[0].0, ops[0].1), ops[1..])
  }

  lemma {:induction false} HealthRunFaithful(base: Tracker, r: Registry, ops: seq<(HealthOp, real)>)
    requires Faithful(base, r) && KnownInLast(r.tracker)
    ensures Faithful(base, HealthRun(r, ops))
    decreases |ops|
  {
    if |ops| == 0 {
    } else {
      var (op, now) := ops[0];
      var r' := HealthStep(r, op, now);
      match op {
        case OpRecord(id) => NotedIsFaithful(base, r, r', id, Healthy);
        case OpEvaluate => EvaluateEachFaithful(base, r, r.tracker.known, now);
        case OpForce(id, state) => NotedIsFaithful(base, r, r', id, state);
      }
      HealthRunFaithful(base, r', ops[1..]);
    }
  }

  /** From any baseline, a run of heartbeats, evaluations and forced states tells its callbacks every change. */
  lemma {:induction false} LogIsFaithful(base: Tracker, ops: seq<(HealthOp, real)>)
    requires KnownInLast(base)
    ensures Faithful(base, HealthRun(Registry(base, []), ops))
  {
    HealthRunFaithful(base, Registry(base, []), ops);
  }

  /**
   * What is stored for `id` is what its explicit mark, or else the time since its last heartbeat, calls for at
   * `now`.
   */
  ghost predicate UpToDate(t: Tracker, id: NodeId, now: real) {
    if id in t.explicitDead then StateOf(t, id) == Dead
    else if id !in t.last then true
    else
      var elapsed := now - t.last[id];
      if elapsed >= t.interval * t.deadAfter as real then StateOf(t, id) == Dead
      else if elapsed >= t.interval * t.suspectedAfter as real then StateOf(t, id) == Suspected
      else StateOf(t, id) == Healthy
  }

  /** A read through `get_state` keeps the log faithful exactly when the stored state is up to date before it. */
  lemma {:induction false} SilentRead(base: Tracker, r: Registry, id: NodeId, now: real)
    requires Faithful(base, r)
    ensures Faithful(base, GetState(r, id, now)) <==> UpToDate(r.tracker, id, now)
  {
    var r' := GetState(r, id, now);
    if id in r.tracker.last && id !in r.tracker.explicitDead {
      EvaluateExactly(r.tracker, id, now);
    }
    assert forall n :: n != id ==> StateOf(r'.tracker, n) == StateOf(r.tracker, n);
    assert Replay(base, r'.log, id) == StateOf(r.tracker, id);
  }

  /** A node that has been silent for the time to dead: the read stores DEAD and nobody is told. */
  lemma {:induction false} SilentDeath()
    ensures var base := Tracker(2.0, 3, 5, ["n"], map["n" := 0.0], map["n" := Healthy], {});
            var r := GetState(Registry(base, []), "n", 10.0);
            && Faithful(base, Registry(base, [])) && StateOf(r.tracker, "n") == Dead && r.log == []
            && !Faithful(base, r)
  {
    var base := Tracker(2.0, 3, 5, ["n"], map["n" := 0.0], map["n" := Healthy], {});
    SilentRead(base, Registry(base, []), "n", 10.0);
  }
}
