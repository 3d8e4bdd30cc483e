/** Leadership pairs when drivers are started again: exactly when a pair can come back after it was overwritten. */
module ElectionRestarts {
  import opened Sorting
  import opened Models
  import opened Election
  import opened ElectionTheory

  // ---- runs one after the other ----

  lemma {:induction false} RunOne(s: System, step: Step)
    requires Enabled(s, step)
    ensures ValidRun(s, [step]) && Run(s, [step]) == Next(s, step)
  {
    var s1 := Next(s, step);
    assert [step][1..] == [];
    assert ValidRun(s1, []) && Run(s1, []) == s1;
  }

  lemma {:induction false} RunTwo(s: System, x: Step, y: Step)
    requires Enabled(s, x) && Enabled(Next(s, x), y)
    ensures ValidRun(s, [x, y]) && Run(s, [x, y]) == Next(Next(s, x), y)
  {
    RunOne(Next(s, x), y);
    assert [x, y][1..] == [y];
  }

  lemma {:induction false} RunAppend(s: System, a: seq<Step>, b: seq<Step>)
    requires ValidRun(s, a) && ValidRun(Run(s, a), b)
    ensures ValidRun(s, a + b) && Run(s, a + b) == Run(Run(s, a), b)
    decreases |a|
  {
    if |a| == 0 {
      assert a + b == b;
    } else {
      RunAppend(Next(s, a[0]), a[1..], b);
      assert (a + b)[1..] == a[1..] + b;
    }
  }

  lemma {:induction false} RunSplit(s: System, steps: seq<Step>, k: nat)
    requires ValidRun(s, steps) && k <= |steps|
    ensures ValidRun(s, steps[..k]) && ValidRun(Run(s, steps[..k]), steps[k..])
    ensures Run(s, steps) == Run(Run(s, steps[..k]), steps[k..])
    decreases |steps|
  {
    if k == 0 {
      assert steps[..0] == [] && steps[0..] == steps;
    } else {
      RunSplit(Next(s, steps[0]), steps[1..], k - 1);
      assert steps[..k][1..] == steps[1..][..k - 1] && steps[1..][k - 1..] == steps[k..];
    }
  }

  /** The clock readings of the steps start at `from` or later and never go back. */
  predicate InOrder(steps: seq<Step>, from: real) {
    |steps| == 0
    || (if steps[0].Stop? || steps[0].Restart? then InOrder(steps[1..], from)
        else steps[0].now >= from && InOrder(steps[1..], steps[0].now))
  }

  predicate NoRestarts(steps: seq<Step>) {
    |steps| == 0 || (!steps[0].Restart? && NoRestarts(steps[1..]))
  }

  /** All steps of `a` are at time `t`. */
  predicate AllAt(a: seq<Step>, t: real) {
    |a| == 0 || (!a[0].Stop? && !a[0].Restart? && a[0].now == t && AllAt(a[1..], t))
  }

  lemma {:induction false} InOrderAppend(a: seq<Step>, b: seq<Step>, t: real, from: real)
    requires AllAt(a, t) && from <= t && InOrder(b, t) && NoRestarts(b)
    ensures InOrder(a + b, from) && NoRestarts(a + b)
  {
    if |a| == 0 {
      assert a + b == b;
      InOrderFrom(b, t, from);
    } else {
      InOrderAppend(a[1..], b, t, t);
      assert (a + b)[1..] == a[1..] + b;
    }
  }

  lemma {:induction false} InOrderFrom(b: seq<Step>, t: real, from: real)
    requires InOrder(b, t) && from <= t
    ensures InOrder(b, from)
  {
    if |b| > 0 && (b[0].Stop? || b[0].Restart?) {
      InOrderFrom(b[1..], t, from);
    }
  }

  // ---- a pair in the row, out of it, and back ----

  /** After the first `k` steps the pair is out of the row, and at the end it is in it. */
  ghost predicate ReturnsIn(s: System, steps: seq<Step>, k: nat, id: DriverId, term: int) {
    && k <= |steps| && ValidRun(s, steps) && ValidRun(s, steps[..k])
    && !Holds(Run(s, steps[..k]).lease, id, term)
    && Holds(Run(s, steps).lease, id, term)
  }

  /** Some run from `s`, at times from `from` on, takes the pair out of the row and brings it back. */
  ghost predicate CanReturn(s: System, id: DriverId, term: int, from: real) {
    exists steps: seq<Step>, k: nat :: ReturnsIn(s, steps, k, id, term) && InOrder(steps, from)
  }

  /** The same without starting any driver again on the way. */
  ghost predicate CanReturnUnaided(s: System, id: DriverId, term: int, from: real) {
    exists steps: seq<Step>, k: nat ::
      ReturnsIn(s, steps, k, id, term) && InOrder(steps, from) && NoRestarts(steps)
  }

  ghost predicate OtherDriver(s: System, id: DriverId) {
    exists o :: o in s.drivers && o != id
  }

  /** A driver that can still move. */
  ghost predicate Runs(s: System, x: DriverId) {
    x in s.drivers && !s.drivers[x].stopped && (s.drivers[x].isLeader ==> !s.drivers[x].retrying)
  }

  function After(s: System, from: real): real {
    if s.lease.Some? then Max(from, s.lease.value.expires) + 1.0 else from
  }

  /** Once the lease has run out, a driver whose pair is not in the row gets it with its next term. */
  lemma {:induction false} Take(s: System, x: DriverId, t: real) returns (steps: seq<Step>)
    requires Runs(s, x) && !Holds(s.lease, x, s.drivers[x].term)
    requires s.lease.Some? ==> s.lease.value.expires < t
    ensures ValidRun(s, steps) && AllAt(steps, t)
    ensures var s' := Run(s, steps);
            && Holds(s'.lease, x, s.drivers[x].term + 1)
            && s'.drivers.Keys == s.drivers.Keys
            && Runs(s', x) && s'.drivers[x].term == s.drivers[x].term + 1
            && (forall o :: o in s.drivers && o != x ==> s'.drivers[o] == s.drivers[o])
  {
    var d := s.drivers[x];
    if d.retrying {
      steps := [Retry(x, t)];
      RunOne(s, Retry(x, t));
    } else if d.isLeader {
      steps := [Renew(x, t), Retry(x, t)];
      assert steps[1..] == [Retry(x, t)];
      RunTwo(s, Renew(x, t), Retry(x, t));
    } else {
      steps := [Try(x, t)];
      RunOne(s, Try(x, t));
    }
  }

  /** From a row of `o`, the two take turns until `x` has climbed to `term`. */
  lemma {:induction false} Climb(s: System, x: DriverId, o: DriverId, term: int, from: real) returns (steps: seq<Step>)
    requires x != o && Runs(s, x) && Runs(s, o)
    requires s.lease.Some? && s.lease.value.driver == o && s.drivers[x].term < term
    ensures ValidRun(s, steps) && InOrder(steps, from) && NoRestarts(steps)
    ensures Holds(Run(s, steps).lease, x, term)
    decreases term - s.drivers[x].term
  {
    var t := After(s, from);
    var a := Take(s, x, t);
    var s1 := Run(s, a);
    if s1.drivers[x].term == term {
      steps := a + [];
      RunAppend(s, a, []);
      InOrderAppend(a, [], t, from);
    } else {
      var u := After(s1, t);
      var b := Take(s1, o, u);
      var c := Climb(Run(s1, b), x, o, term, u);
      steps := a + (b + c);
      RunAppend(s1, b, c);
      RunAppend(s, a, b + c);
      InOrderAppend(b, c, u, t);
      InOrderAppend(a, b + c, t, from);
    }
  }

  lemma {:induction false} ReturnsWithOther(s: System, id: DriverId, o: DriverId, term: int, from: real)
    requires id != o && Runs(s, id) && Runs(s, o)
    requires Holds(s.lease, id, term) && s.drivers[id].term < term
    ensures CanReturnUnaided(s, id, term, from)
  {
    var t := After(s, from);
    var a := Take(s, o, t);
    var s1 := Run(s, a);
    var b := Climb(s1, id, o, term, t);
    RunAppend(s, a, b);
    InOrderAppend(a, b, t, from);
    assert (a + b)[..|a|] == a;
    assert ReturnsIn(s, a + b, |a|, id, term);
  }

  // ---- a driver that is alone ----

  /**
   * If the row is the lone driver's, it is its present pair and it leads, or it is ahead of a driver that must climb.
   */
  ghost predicate LoneOk(s: System, id: DriverId) {
    && s.drivers.Keys <= {id}
    && (s.lease.Some? ==> s.lease.value.term >= 1)
    && (id in s.drivers ==>
          var d := s.drivers[id];
          && d.term >= 0
          && (d.stopped ==> !d.isLeader)
          && (!d.stopped && s.lease.Some? && s.lease.value.driver == id ==>
                !d.retrying && if d.isLeader then d.term == s.lease.value.term else d.term < s.lease.value.term)
          && (!d.stopped && !(s.lease.Some? && s.lease.value.driver == id) ==> !d.retrying && !d.isLeader))
  }

  lemma {:induction false} LoneStep(s: System, step: Step, id: DriverId)
    requires LoneOk(s, id) && Enabled(s, step)
    ensures LoneOk(Next(s, step), id)
    ensures s.lease.Some? && s.lease.value.driver == id ==>
      var lease := Next(s, step).lease;
      lease.Some? && lease.value.driver == id && lease.value.term <= s.lease.value.term
  {
  }

  /** The row of a lone driver stays its own, and its term never rises. */
  lemma {:induction false} LoneRun(s: System, steps: seq<Step>, id: DriverId)
    requires LoneOk(s, id) && ValidRun(s, steps)
    ensures LoneOk(Run(s, steps), id)
    ensures s.lease.Some? && s.lease.value.driver == id ==>
      var lease := Run(s, steps).lease;
      lease.Some? && lease.value.driver == id && lease.value.term <= s.lease.value.term
    decreases |steps|
  {
    if |steps| > 0 {
      LoneStep(s, steps[0], id);
      LoneRun(Next(s, steps[0]), steps[1..], id);
    }
  }

  lemma {:induction false} LoneFenced(s: System, steps: seq<Step>, id: DriverId, term: int, k: nat)
    requires LoneOk(s, id) && Holds(s.lease, id, term)
    ensures !ReturnsIn(s, steps, k, id, term)
  {
    if ReturnsIn(s, steps, k, id, term) {
      RunSplit(s, steps, k);
      LoneRun(s, steps[..k], id);
      LoneRun(Run(s, steps[..k]), steps[k..], id);
      assert false;
    }
  }

  lemma {:induction false} AloneIsLone(s: System, id: DriverId)
    requires Initial(s) && !OtherDriver(s, id)
    ensures LoneOk(s, id)
  {
  }

  // ---- a driver that alone still runs ----

  ghost predicate OtherRuns(s: System, id: DriverId) {
    exists o :: o != id && Runs(s, o)
  }

  /** The row is `id`'s, its present pair or ahead of it, and no other driver runs. */
  ghost predicate KeepsRow(s: System, id: DriverId) {
    && id in s.drivers && s.lease.Some? && s.lease.value.driver == id
    && (forall o :: o in s.drivers && o != id ==> s.drivers[o].stopped)
    && var d := s.drivers[id];
       !d.stopped ==>
         d.term <= s.lease.value.term && (d.term == s.lease.value.term ==> d.isLeader && !d.retrying)
  }

  lemma {:induction false} KeepsRowStep(s: System, step: Step, id: DriverId)
    requires KeepsRow(s, id) && Enabled(s, step) && !step.Restart?
    ensures KeepsRow(Next(s, step), id) && Next(s, step).lease.value.term <= s.lease.value.term
  {
  }

  lemma {:induction false} KeepsRowRun(s: System, steps: seq<Step>, id: DriverId)
    requires KeepsRow(s, id) && ValidRun(s, steps) && NoRestarts(steps)
    ensures KeepsRow(Run(s, steps), id) && Run(s, steps).lease.value.term <= s.lease.value.term
    decreases |steps|
  {
    if |steps| > 0 {
      KeepsRowStep(s, steps[0], id);
      KeepsRowRun(Next(s, steps[0]), steps[1..], id);
    }
  }

  /** What a stopped driver has lost it never gets again. */
  lemma {:induction false} StoppedFenced(s: System, steps: seq<Step>, id: DriverId, term: int)
    requires ValidRun(s, steps) && NoRestarts(steps)
    requires id in s.drivers && s.drivers[id].stopped && !Holds(s.lease, id, term)
    ensures !Holds(Run(s, steps).lease, id, term)
    decreases |steps|
  {
    if |steps| > 0 {
      StoppedFenced(Next(s, steps[0]), steps[1..], id, term);
    }
  }

  lemma {:induction false} StaysStopped(s: System, steps: seq<Step>, id: DriverId)
    requires ValidRun(s, steps) && NoRestarts(steps) && id in s.drivers && s.drivers[id].stopped
    ensures id in Run(s, steps).drivers && Run(s, steps).drivers[id].stopped
    decreases |steps|
  {
    if |steps| > 0 {
      StaysStopped(Next(s, steps[0]), steps[1..], id);
    }
  }

  lemma {:induction false} NoRestartsSplit(steps: seq<Step>, k: nat, id: DriverId)
    requires NoRestarts(steps) && k <= |steps|
    ensures NoRestarts(steps[..k]) && NoRestarts(steps[k..]) && !Restarts(steps[..k], id) && !Restarts(steps[k..], id)
    decreases |steps|
  {
    if k > 0 {
      NoRestartsSplit(steps[1..], k - 1, id);
      assert steps[..k][1..] == steps[1..][..k - 1] && steps[1..][k - 1..] == steps[k..];
    } else if |steps| > 0 {
      NoRestartsSplit(steps[1..], 0, id);
      assert steps[0..] == steps && steps[1..][0..] == steps[1..];
    }
  }

  /** Once the pair is spent, or its driver or all others are stopped, it does not return without restarts. */
  lemma {:induction false} StaysOut(s: System, steps: seq<Step>, k: nat, id: DriverId, term: int)
    requires Inv(s) && id in s.drivers && Holds(s.lease, id, term)
    requires !(Runs(s, id) && s.drivers[id].term < term && OtherRuns(s, id))
    requires NoRestarts(steps)
    ensures !ReturnsIn(s, steps, k, id, term)
  {
    if ReturnsIn(s, steps, k, id, term) {
      RunSplit(s, steps, k);
      NoRestartsSplit(steps, k, id);
      var mid := Run(s, steps[..k]);
      if term <= s.drivers[id].term {
        TermsGrow(s, steps[..k], id);
        Fenced(mid, steps[k..], id, term, 0.0, 0.0);
      } else if s.drivers[id].stopped {
        StaysStopped(s, steps[..k], id);
        StoppedFenced(mid, steps[k..], id, term);
      } else {
        OthersStopped(s, id);
        KeepsRowRun(s, steps[..k], id);
        KeepsRowRun(mid, steps[k..], id);
      }
    }
  }

  lemma {:induction false} OthersStopped(s: System, id: DriverId)
    requires Inv(s) && id in s.drivers && !OtherRuns(s, id)
    ensures forall o :: o in s.drivers && o != id ==> s.drivers[o].stopped
  {
    forall o | o in s.drivers && o != id ensures s.drivers[o].stopped {
      assert DriverInv(s.lease, o, s.drivers[o]);
      assert !Runs(s, o);
    }
  }

  // ---- the exact conditions ----

  /**
   * The pair that a driver left in the row before it was started can come back after it was overwritten if and only
   * if there is another driver, with or without further restarts.
   */
  lemma {:induction false} LeftoverReturnsExactly(s: System, id: DriverId, term: int, from: real)
    requires Initial(s) && Holds(s.lease, id, term) && id in s.drivers
    ensures CanReturnUnaided(s, id, term, from) <==> OtherDriver(s, id)
    ensures CanReturn(s, id, term, from) <==> OtherDriver(s, id)
  {
    if OtherDriver(s, id) {
      var o :| o in s.drivers && o != id;
      ReturnsWithOther(s, id, o, term, from);
    } else {
      AloneIsLone(s, id);
      forall steps: seq<Step>, k: nat ensures !ReturnsIn(s, steps, k, id, term) {
        LoneFenced(s, steps, id, term, k);
      }
    }
  }

  /**
   * In any reachable state in which a pair is in the row, runs with restarts can bring it back after it was
   * overwritten if and only if there is another driver.
   */
  lemma {:induction false} PairReturnsExactly(s: System, before: seq<Step>, id: DriverId, term: int, from: real)
    requires Initial(s) && ValidRun(s, before) && id in s.drivers && Holds(Run(s, before).lease, id, term)
    ensures CanReturn(Run(s, before), id, term, from) <==> OtherDriver(s, id)
  {
    var mid := Run(s, before);
    RunKeepsDrivers(s, before);
    InitialInv(s);
    RunKeepsInv(s, before);
    if OtherDriver(s, id) {
      var o :| o in s.drivers && o != id;
      ReturnsAfterRestarts(mid, id, o, term, from);
    } else {
      AloneIsLone(s, id);
      LoneRun(s, before, id);
      forall steps: seq<Step>, k: nat ensures !ReturnsIn(mid, steps, k, id, term) {
        LoneFenced(mid, steps, id, term, k);
      }
    }
  }

  /**
   * In any reachable state in which a pair is in the row, a run without restarts can bring it back after it was
   * overwritten if and only if its driver runs at a smaller term and another driver runs too.
   */
  lemma {:induction false} UnaidedReturnsExactly(s: System, before: seq<Step>, id: DriverId, term: int, from: real)
    requires Initial(s) && ValidRun(s, before) && id in s.drivers && Holds(Run(s, before).lease, id, term)
    ensures id in Run(s, before).drivers
    ensures var mid := Run(s, before);
            CanReturnUnaided(mid, id, term, from) <==>
              Runs(mid, id) && mid.drivers[id].term < term && OtherRuns(mid, id)
  {
    var mid := Run(s, before);
    RunKeepsDrivers(s, before);
    InitialInv(s);
    RunKeepsInv(s, before);
    if Runs(mid, id) && mid.drivers[id].term < term && OtherRuns(mid, id) {
      var o :| o != id && Runs(mid, o);
      ReturnsWithOther(mid, id, o, term, from);
    } else {
      forall steps: seq<Step>, k: nat | NoRestarts(steps) ensures !ReturnsIn(mid, steps, k, id, term) {
        StaysOut(mid, steps, k, id, term);
      }
    }
  }

  lemma {:induction false} LaterReturn(s: System, again: seq<Step>, steps: seq<Step>, k: nat, id: DriverId, term: int)
    requires ValidRun(s, again) && ReturnsIn(Run(s, again), steps, k, id, term)
    ensures ReturnsIn(s, again + steps, |again| + k, id, term)
  {
    RunAppend(s, again, steps);
    RunAppend(s, again, steps[..k]);
    assert (again + steps)[..|again| + k] == again + steps[..k];
  }

  lemma {:induction false} RestartsInOrder(a: DriverId, b: DriverId, steps: seq<Step>, from: real)
    requires InOrder(steps, from)
    ensures InOrder([Restart(a), Restart(b)] + steps, from)
  {
    var all := [Restart(a), Restart(b)] + steps;
    assert all[1..][1..] == steps && all[1..][0] == Restart(b) && all[0] == Restart(a);
    assert InOrder(all[1..], from);
  }

  lemma {:induction false} ReturnsAfterRestarts(s: System, id: DriverId, o: DriverId, term: int, from: real)
    requires Inv(s) && id in s.drivers && o in s.drivers && id != o && Holds(s.lease, id, term)
    ensures CanReturn(s, id, term, from)
  {
    var again := [Restart(id), Restart(o)];
    RunTwo(s, Restart(id), Restart(o));
    ReturnsWithOther(Run(s, again), id, o, term, from);
    var steps: seq<Step>, k: nat :|
      ReturnsIn(Run(s, again), steps, k, id, term) && InOrder(steps, from) && NoRestarts(steps);
    LaterReturn(s, again, steps, k, id, term);
    RestartsInOrder(id, o, steps, from);
  }

  /**
   * A pair that was in the row and has been overwritten is fenced for ever if its driver is alone, however often it
   * is started again, and otherwise if it was not left in the row by an earlier process and its driver is not started
   * again.
   */
  lemma {:induction false} OverwrittenIsFenced(s: System, before: seq<Step>, during: seq<Step>, after: seq<Step>,
                                               id: DriverId, term: int, ttl: real, now: real)
    requires Initial(s)
    requires !OtherDriver(s, id) ||
             (&& (Holds(s.lease, id, term) ==> id !in s.drivers)
              && !Restarts(before, id) && !Restarts(during, id) && !Restarts(after, id))
    requires ValidRun(s, before) && Holds(Run(s, before).lease, id, term)
    requires ValidRun(Run(s, before), during) && !Holds(Run(Run(s, before), during).lease, id, term)
    requires ValidRun(Run(Run(s, before), during), after)
    ensures !RenewLease(Run(Run(Run(s, before), during), after).lease, id, term, ttl, now).1
  {
    var mid := Run(s, before);
    if OtherDriver(s, id) {
      HeldIsSpent(s, before, id, term);
      TermsGrow(mid, during, id);
      RunKeepsDrivers(mid, during);
      Fenced(Run(mid, during), after, id, term, ttl, now);
    } else {
      AloneIsLone(s, id);
      LoneRun(s, before, id);
      LoneRun(mid, during, id);
      LoneRun(Run(mid, during), after, id);
    }
  }
}
