/** Any number of drivers on one row, every store call an atomic step: agreement, fencing, takeover. */
module ElectionTheory {
  import opened Models
  import opened Election

  datatype System = System(lease: Lease, drivers: map<DriverId, Driver>)

  /**
   * A follower's pass, the two halves of a leader's pass, `stop`, and a new process under the same id; each names
   * the driver that moves.
   */
  datatype Step =
    | Try(id: DriverId, now: real)
    | Renew(id: DriverId, now: real)
    | Retry(id: DriverId, now: real)
    | Stop(id: DriverId)
    | Restart(id: DriverId)

  predicate Enabled(s: System, step: Step) {
    && step.id in s.drivers
    && var d := s.drivers[step.id];
       match step
       case Try(_, _) => !d.stopped && !d.retrying && !d.isLeader
       case Renew(_, _) => !d.stopped && !d.retrying && d.isLeader
       case Retry(_, _) => d.retrying
       case Stop(_) => true
       case Restart(_) => true
  }

  function Next(s: System, step: Step): System
    requires Enabled(s, step)
  {
    var d := s.drivers[step.id];
    var (lease, d') :=
      match step
      case Try(id, now) => TryStep(s.lease, id, d, now)
      case Renew(id, now) => RenewStep(s.lease, id, d, now)
      case Retry(id, now) => TryStep(s.lease, id, d, now)
      case Stop(id) => (s.lease, d.(stopped := true, isLeader := false))
      case Restart(id) => (s.lease, Fresh(d.ttl));
    System(lease, s.drivers[step.id := d'])
  }

  ghost predicate ValidRun(s: System, steps: seq<Step>)
    decreases |steps|
  {
    |steps| == 0 || (Enabled(s, steps[0]) && ValidRun(Next(s, steps[0]), steps[1..]))
  }

  ghost function Run(s: System, steps: seq<Step>): System
    requires ValidRun(s, steps)
    decreases |steps|
  {
    if |steps| == 0 then s else Run(Next(s, steps[0]), steps[1..])
  }

  predicate Holds(lease: Lease, id: DriverId, term: int) {
    lease.Some? && lease.value.driver == id && lease.value.term == term
  }

  /** Fresh drivers; the row may be left over from any driver, even one that is now started again. */
  ghost predicate Initial(s: System) {
    && (forall id :: id in s.drivers ==> s.drivers[id] == Fresh(s.drivers[id].ttl))
    && (s.lease.Some? ==> s.lease.value.term >= 1)
  }

  /** Callbacks are told true and false in turn, beginning with true, and until `stop` the last one is the flag. */
  ghost predicate LogAgrees(d: Driver) {
    && (forall i :: 0 <= i < |d.notified| ==> d.notified[i] == (i % 2 == 0))
    && (!d.stopped ==> d.isLeader == (|d.notified| % 2 == 1))
  }

  ghost predicate DriverInv(lease: Lease, id: DriverId, d: Driver) {
    && (Holds(lease, id, d.term) && !d.stopped ==> d.isLeader)
    && (d.isLeader ==> !d.stopped && !d.retrying)
    && d.term >= 0
    && LogAgrees(d)
  }

  ghost predicate Inv(s: System) {
    && (s.lease.Some? ==> s.lease.value.term >= 1)
    && (forall id :: id in s.drivers ==> DriverInv(s.lease, id, s.drivers[id]))
  }

  /** A call to the store succeeds exactly when the row ends up being the caller's. */
  lemma {:induction false} StoreAnswersRow(lease: Lease, id: DriverId, term: int, ttl: real, now: real)
    ensures TryAcquire(lease, id, term, ttl, now).1 <==> Holds(TryAcquire(lease, id, term, ttl, now).0, id, term)
    ensures RenewLease(lease, id, term, ttl, now).1 <==> Holds(RenewLease(lease, id, term, ttl, now).0, id, term)
    ensures Holds(RenewLease(lease, id, term, ttl, now).0, id, term) <==> Holds(lease, id, term)
  {
  }

  /**
   * With a lease that does not start out expired, a call succeeds exactly when `get_leader` then names the caller's
   * pair.
   */
  lemma {:induction false} StoreReportsLeader(lease: Lease, id: DriverId, term: int, ttl: real, now: real)
    requires ttl >= 0.0
    ensures TryAcquire(lease, id, term, ttl, now).1 <==>
      Leader(TryAcquire(lease, id, term, ttl, now).0, now) == Some((id, term))
    ensures RenewLease(lease, id, term, ttl, now).1 <==>
      Leader(RenewLease(lease, id, term, ttl, now).0, now) == Some((id, term))
  {
  }

  lemma {:induction false} TryKeepsInv(lease: Lease, id: DriverId, d: Driver, now: real)
    requires DriverInv(lease, id, d)
    ensures DriverInv(TryStep(lease, id, d, now).0, id, TryStep(lease, id, d, now).1)
  {
  }

  lemma {:induction false} NextKeepsInv(s: System, step: Step)
    requires Inv(s) && Enabled(s, step)
    ensures Inv(Next(s, step))
  {
    var d := s.drivers[step.id];
    match step {
      case Try(id, now) => TryKeepsInv(s.lease, id, d, now);
      case Renew(id, now) => StoreAnswersRow(s.lease, id, d.term, d.ttl, now);
      case Retry(id, now) => TryKeepsInv(s.lease, id, d, now);
      case Stop(id) =>
      case Restart(id) =>
    }
    var s' := Next(s, step);
    assert DriverInv(s'.lease, step.id, s'.drivers[step.id]);
  }

  lemma {:induction false} RunKeepsInv(s: System, steps: seq<Step>)
    requires Inv(s) && ValidRun(s, steps)
    ensures Inv(Run(s, steps))
    decreases |steps|
  {
    if |steps| == 0 {
    } else {
      NextKeepsInv(s, steps[0]);
      RunKeepsInv(Next(s, steps[0]), steps[1..]);
    }
  }

  lemma {:induction false} InitialInv(s: System)
    requires Initial(s)
    ensures Inv(s)
  {
  }

  /** The step finishes a pass of its driver: only a failed renewal leaves the pass open. */
  ghost predicate Completes(s: System, step: Step)
    requires Enabled(s, step)
  {
    !step.Stop? && !step.Restart? && !Next(s, step).drivers[step.id].retrying
  }

  /** After a completed pass of an unstopped driver its flag says exactly whether the row is its own. */
  lemma {:induction false} PassAgrees(s: System, step: Step)
    requires Inv(s) && Enabled(s, step) && Completes(s, step)
    ensures var s' := Next(s, step);
            var d := s'.drivers[step.id];
            !d.stopped ==> (d.isLeader <==> Holds(s'.lease, step.id, d.term))
  {
  }

  /** In every reachable state the driver whose current pair is in the row knows it, and is the only such driver. */
  lemma {:induction false} LeaderKnows(s: System, steps: seq<Step>, id: DriverId, other: DriverId)
    requires Initial(s) && ValidRun(s, steps) && id in s.drivers
    ensures Run(s, steps).drivers.Keys == s.drivers.Keys
    ensures var s' := Run(s, steps);
            Holds(s'.lease, id, s'.drivers[id].term) && !s'.drivers[id].stopped ==>
              && s'.drivers[id].isLeader
              && (other in s'.drivers && other != id ==> !Holds(s'.lease, other, s'.drivers[other].term))
    ensures LogAgrees(Run(s, steps).drivers[id])
  {
    RunKeepsDrivers(s, steps);
    InitialInv(s);
    RunKeepsInv(s, steps);
    assert DriverInv(Run(s, steps).lease, id, Run(s, steps).drivers[id]);
  }

  lemma {:induction false} RunKeepsDrivers(s: System, steps: seq<Step>)
    requires ValidRun(s, steps)
    ensures Run(s, steps).drivers.Keys == s.drivers.Keys
    decreases |steps|
  {
    if |steps| == 0 {
    } else {
      RunKeepsDrivers(Next(s, steps[0]), steps[1..]);
    }
  }

  // ---- fencing ----

  /** The run starts a new process under `id`. */
  predicate Restarts(steps: seq<Step>, id: DriverId) {
    |steps| > 0 && (steps[0] == Restart(id) || Restarts(steps[1..], id))
  }

  /** The pair can no longer be written: its driver has moved past the term, or is not running at all. */
  ghost predicate Spent(s: System, id: DriverId, term: int) {
    id in s.drivers ==> term <= s.drivers[id].term
  }

  /**
   * Until its driver is started again, a spent pair that is out of the row never comes back, and every renewal with
   * it fails.
   */
  lemma {:induction false} Fenced(s: System, steps: seq<Step>, id: DriverId, term: int, ttl: real, now: real)
    requires ValidRun(s, steps) && !Restarts(steps, id) && Spent(s, id, term) && !Holds(s.lease, id, term)
    ensures !Holds(Run(s, steps).lease, id, term)
    ensures !RenewLease(Run(s, steps).lease, id, term, ttl, now).1
    decreases |steps|
  {
    if |steps| == 0 {
    } else {
      Fenced(Next(s, steps[0]), steps[1..], id, term, ttl, now);
    }
  }

  lemma {:induction false} HeldIsSpent(s: System, steps: seq<Step>, id: DriverId, term: int)
    requires ValidRun(s, steps) && !Restarts(steps, id) && (Holds(s.lease, id, term) ==> Spent(s, id, term))
    ensures Holds(Run(s, steps).lease, id, term) ==> Spent(Run(s, steps), id, term)
    decreases |steps|
  {
    if |steps| == 0 {
    } else {
      HeldIsSpent(Next(s, steps[0]), steps[1..], id, term);
    }
  }

  lemma {:induction false} TermsGrow(s: System, steps: seq<Step>, id: DriverId)
    requires ValidRun(s, steps) && !Restarts(steps, id)
    ensures id in s.drivers ==>
      id in Run(s, steps).drivers && s.drivers[id].term <= Run(s, steps).drivers[id].term
    decreases |steps|
  {
    if |steps| == 0 {
    } else {
      TermsGrow(Next(s, steps[0]), steps[1..], id);
    }
  }

  /** The pairs that a run writes into the row, in order. */
  ghost function Grants(s: System, steps: seq<Step>): seq<(DriverId, int)>
    requires ValidRun(s, steps)
    decreases |steps|
  {
    if |steps| == 0 then []
    else
      var s' := Next(s, steps[0]);
      var id := steps[0].id;
      var d := s'.drivers[id];
      (if Holds(s'.lease, id, d.term) && !Holds(s.lease, id, d.term) then [(id, d.term)] else [])
      + Grants(s', steps[1..])
  }

  lemma {:induction false} GrantsAreNew(s: System, steps: seq<Step>)
    requires ValidRun(s, steps)
    ensures forall g :: g in Grants(s, steps) ==>
      g.0 in s.drivers && (Restarts(steps, g.0) || g.1 > s.drivers[g.0].term)
    decreases |steps|
  {
    if |steps| == 0 {
    } else {
      GrantsAreNew(Next(s, steps[0]), steps[1..]);
    }
  }

  /** Leadership pairs work as fencing tokens: no run grants the same pair twice, unless its driver is started again. */
  lemma {:induction false} GrantsAreUnique(s: System, steps: seq<Step>, i: nat, j: nat)
    requires ValidRun(s, steps) && i < j < |Grants(s, steps)|
    ensures Grants(s, steps)[i] == Grants(s, steps)[j] ==> Restarts(steps, Grants(s, steps)[i].0)
    decreases |steps|
  {
    var s' := Next(s, steps[0]);
    var gs, rest := Grants(s, steps), Grants(s', steps[1..]);
    var first := (steps[0].id, s'.drivers[steps[0].id].term);
    if gs == [first] + rest {
      assert gs[j] == rest[j - 1] && rest[j - 1] in rest;
      if i == 0 {
        GrantsAreNew(s', steps[1..]);
      } else {
        GrantsAreUnique(s', steps[1..], i - 1, j - 1);
      }
    } else {
      assert gs == [] + rest == rest;
      GrantsAreUnique(s', steps[1..], i, j);
    }
  }

  // ---- "one leader at a time" ----

  ghost predicate OneFlag(s: System) {
    forall a, b :: a in s.drivers && b in s.drivers && s.drivers[a].isLeader && s.drivers[b].isLeader ==> a == b
  }

  /**
   * A call that asks for the next term gets the row: it is free, run out, of a smaller term, or the caller's
   * already.
   */
  predicate Grantable(lease: Lease, id: DriverId, d: Driver, now: real) {
    || lease.None?
    || lease.value.expires < now
    || d.term + 1 > lease.value.term
    || (d.term + 1 == lease.value.term && lease.value.driver == id)
  }

  /**
   * Some driver has its flag up, and the step is another driver's try, or its retry after a failed renewal, that
   * gets the row.
   */
  ghost predicate AddsLeader(s: System, step: Step)
    requires Enabled(s, step)
  {
    && (step.Try? || step.Retry?)
    && !s.drivers[step.id].stopped
    && (exists a :: a in s.drivers && s.drivers[a].isLeader)
    && Grantable(s.lease, step.id, s.drivers[step.id], step.now)
  }

  /** A step of any kind puts up a second flag exactly in that case. */
  lemma {:induction false} SecondLeaderExactly(s: System, step: Step)
    requires Inv(s) && OneFlag(s) && Enabled(s, step)
    ensures !OneFlag(Next(s, step)) <==> AddsLeader(s, step)
  {
    var id := step.id;
    var s' := Next(s, step);
    assert DriverInv(s.lease, id, s.drivers[id]);
    assert forall a :: a in s.drivers && a != id ==> s'.drivers[a] == s.drivers[a];
    if AddsLeader(s, step) {
      var a :| a in s.drivers && s.drivers[a].isLeader;
      assert s'.drivers[id].isLeader && a != id && s'.drivers[a].isLeader;
      assert !OneFlag(s');
    }
  }

  ghost predicate OneFlagThroughout(s: System, steps: seq<Step>)
    requires ValidRun(s, steps)
    decreases |steps|
  {
    OneFlag(s) && (|steps| == 0 || OneFlagThroughout(Next(s, steps[0]), steps[1..]))
  }

  ghost predicate NeverAddsLeader(s: System, steps: seq<Step>)
    requires ValidRun(s, steps)
    decreases |steps|
  {
    |steps| == 0 || (!AddsLeader(s, steps[0]) && NeverAddsLeader(Next(s, steps[0]), steps[1..]))
  }

  /** Over a whole run there is one leader at a time if and only if no try and no retry meets the condition. */
  lemma {:induction false} OneLeaderExactly(s: System, steps: seq<Step>)
    requires Inv(s) && OneFlag(s) && ValidRun(s, steps)
    ensures OneFlagThroughout(s, steps) <==> NeverAddsLeader(s, steps)
    decreases |steps|
  {
    if |steps| == 0 {
    } else {
      SecondLeaderExactly(s, steps[0]);
      NextKeepsInv(s, steps[0]);
      if OneFlag(Next(s, steps[0])) {
        OneLeaderExactly(Next(s, steps[0]), steps[1..]);
      }
    }
  }

  /** Two leaders at once, three seconds into a ten-second lease: a follower's second try outbids term 1. */
  lemma {:induction false} TwoLeaders()
    ensures var s := System(None, map["d1" := Fresh(10.0), "d2" := Fresh(10.0)]);
            var steps := [Try("d1", 0.0), Try("d2", 0.0), Try("d2", 3.0)];
            && Initial(s) && ValidRun(s, steps)
            && Run(s, steps).drivers["d1"].isLeader && Run(s, steps).drivers["d2"].isLeader
  {
  }

  /**
   * The retry of a pass whose renewal failed puts up a second flag as well, once the new leader's lease has run
   * out.
   */
  lemma {:induction false} RetryMakesTwoLeaders()
    ensures var s := System(None, map["d1" := Fresh(10.0), "d2" := Fresh(10.0)]);
            var steps := [Try("d1", 0.0), Try("d2", 0.0), Try("d2", 0.0), Renew("d1", 3.0)];
            var retry := Retry("d1", 11.0);
            && Initial(s) && ValidRun(s, steps) && OneFlag(Run(s, steps))
            && Enabled(Run(s, steps), retry) && AddsLeader(Run(s, steps), retry) && !OneFlag(Next(Run(s, steps), retry))
  {
    var s := System(None, map["d1" := Fresh(10.0), "d2" := Fresh(10.0)]);
    var steps := [Try("d1", 0.0), Try("d2", 0.0), Try("d2", 0.0), Renew("d1", 3.0)];
    var s1 := Next(s, steps[0]);
    var s2 := Next(s1, steps[1]);
    var s3 := Next(s2, steps[2]);
    var s4 := Next(s3, steps[3]);
    assert steps[1..][1..][1..][1..] == [];
    assert ValidRun(s4, []) && Run(s4, []) == s4;
    assert ValidRun(s3, steps[1..][1..][1..]) && Run(s3, steps[1..][1..][1..]) == s4;
    assert ValidRun(s2, steps[1..][1..]) && Run(s2, steps[1..][1..]) == s4;
    assert s4.drivers["d2"].isLeader && s4.drivers["d1"].retrying;
    var s5 := Next(s4, Retry("d1", 11.0));
    assert s5.drivers["d1"].isLeader && s5.drivers["d2"].isLeader;
  }

  // ---- takeover by a driver that runs alone ----

  /** Passes of one driver alone, each at its own two clock readings. */
  function Solo(lease: Lease, id: DriverId, d: Driver, times: seq<(real, real)>): (Lease, Driver)
    decreases |times|
  {
    if |times| == 0 then (lease, d)
    else
      var (lease', d') := Pass(lease, id, d, times[0].0, times[0].1);
      Solo(lease', id, d', times[1..])
  }

  function TriesNeeded(lease: Lease, d: Driver): int {
    if lease.Some? && lease.value.term - d.term + 1 > 1 then lease.value.term - d.term + 1 else 1
  }

  /** A leader that runs alone stays leader and keeps its term: every renewal succeeds. */
  lemma {:induction false} SoloLeaderStays(lease: Lease, id: DriverId, d: Driver, times: seq<(real, real)>)
    requires d.isLeader && !d.stopped && !d.retrying && Holds(lease, id, d.term)
    ensures var (lease', d') := Solo(lease, id, d, times);
            d' == d && Holds(lease', id, d.term)
    decreases |times|
  {
    if |times| == 0 {
    } else {
      var (lease', d') := Pass(lease, id, d, times[0].0, times[0].1);
      SoloLeaderStays(lease', id, d', times[1..]);
    }
  }

  /** An unstopped driver that runs alone is leader after at most `TriesNeeded` passes, and from then on. */
  lemma {:induction false} TakeoverBound(lease: Lease, id: DriverId, d: Driver, times: seq<(real, real)>)
    requires DriverInv(lease, id, d) && !d.stopped && !d.retrying
    requires |times| >= TriesNeeded(lease, d)
    ensures var (lease', d') := Solo(lease, id, d, times);
            d'.isLeader && Holds(lease', id, d'.term)
    decreases |times|
  {
    var (lease', d') := Pass(lease, id, d, times[0].0, times[0].1);
    if d'.isLeader {
      SoloLeaderStays(lease', id, d', times[1..]);
    } else {
      PassKeepsInv(lease, id, d, times[0].0, times[0].1);
      TakeoverBound(lease', id, d', times[1..]);
    }
  }

  lemma {:induction false} PassKeepsInv(lease: Lease, id: DriverId, d: Driver, now: real, later: real)
    requires DriverInv(lease, id, d) && !d.retrying
    ensures DriverInv(Pass(lease, id, d, now, later).0, id, Pass(lease, id, d, now, later).1)
  {
  }

  /**
   * While another driver's lease has not run out, a lone follower leads after n passes exactly when n reaches the
   * bound.
   */
  lemma {:induction false} TakeoverExactly(lease: Lease, id: DriverId, d: Driver, times: seq<(real, real)>)
    requires !d.stopped && !d.retrying && !d.isLeader
    requires lease.Some? && lease.value.driver != id
    requires forall i :: 0 <= i < |times| ==> times[i].0 <= lease.value.expires
    requires DriverInv(lease, id, d)
    ensures Solo(lease, id, d, times).1.isLeader <==> |times| >= TriesNeeded(lease, d)
    decreases |times|
  {
    if |times| == 0 {
    } else {
      var (lease', d') := Pass(lease, id, d, times[0].0, times[0].1);
      if d'.isLeader {
        SoloLeaderStays(lease', id, d', times[1..]);
      } else {
        TryKeepsInv(lease, id, d, times[0].0);
        TakeoverExactly(lease', id, d', times[1..]);
      }
    }
  }
}
