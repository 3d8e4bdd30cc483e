/** How long a lease lasts, what it keeps out, and what `stop` ends. */
module ElectionLeases {
  import opened Models
  import opened Election
  import opened ElectionTheory
  import opened ElectionRestarts

  // ---- one call to the store ----

  /** A call that asks for the row with this term at that time writes it. */
  predicate Writes(lease: Lease, term: int, now: real) {
    lease.None? || lease.value.expires < now || lease.value.term < term
  }

  /**
   * A call that writes the row is granted, and its pair is the reported leader up to the end of the lease time and
   * not after it. Another driver gets the row after that end or with a larger term, and not otherwise.
   */
  lemma {:induction false} GrantLasts(lease: Lease, id: DriverId, term: int, ttl: real, now: real, t: real,
                                      other: DriverId, otherTerm: int, otherTtl: real)
    requires Writes(lease, term, now) && other != id
    ensures TryAcquire(lease, id, term, ttl, now).1
    ensures var row := TryAcquire(lease, id, term, ttl, now).0;
            && (Leader(row, t) == Some((id, term)) <==> t <= now + ttl)
            && (Leader(row, t) == None <==> t > now + ttl)
            && (TryAcquire(row, other, otherTerm, otherTtl, t).1 <==> t > now + ttl || otherTerm > term)
            && (!TryAcquire(row, other, otherTerm, otherTtl, t).1 ==>
                  TryAcquire(row, other, otherTerm, otherTtl, t).0 == row)
  {
  }

  /** A call that does not write the row leaves it as it is, its end included, and is granted only to its own driver. */
  lemma {:induction false} OthersAreRefused(lease: Lease, id: DriverId, term: int, ttl: real, now: real)
    requires !Writes(lease, term, now)
    ensures TryAcquire(lease, id, term, ttl, now).0 == lease
    ensures TryAcquire(lease, id, term, ttl, now).1 <==> Holds(lease, id, term)
  {
  }

  /** A successful renewal makes the lease last from its own time on; a failed one changes nothing. */
  lemma {:induction false} RenewalLasts(lease: Lease, id: DriverId, term: int, ttl: real, now: real, t: real,
                                        other: DriverId, otherTerm: int, otherTtl: real)
    requires other != id
    ensures var (row, ok) := RenewLease(lease, id, term, ttl, now);
            && (ok <==> Holds(lease, id, term))
            && (!ok ==> row == lease)
            && (ok ==>
                  && (Leader(row, t) == Some((id, term)) <==> t <= now + ttl)
                  && (TryAcquire(row, other, otherTerm, otherTtl, t).1 <==> t > now + ttl || otherTerm > term))
  {
  }

  // ---- a lease among running drivers ----

  /** No clock reading is later than `end`. */
  predicate Until(steps: seq<Step>, end: real) {
    |steps| == 0 || ((steps[0].Stop? || steps[0].Restart? || steps[0].now <= end) && Until(steps[1..], end))
  }

  /** A driver asks the store for a larger term than `term`. */
  ghost predicate AsksAbove(s: System, step: Step, term: int)
    requires Enabled(s, step)
  {
    (step.Try? || step.Retry?) && !s.drivers[step.id].stopped && s.drivers[step.id].term + 1 > term
  }

  ghost predicate NoneAsksAbove(s: System, steps: seq<Step>, term: int)
    requires ValidRun(s, steps)
    decreases |steps|
  {
    |steps| == 0 || (!AsksAbove(s, steps[0], term) && NoneAsksAbove(Next(s, steps[0]), steps[1..], term))
  }

  ghost predicate HeldThroughout(s: System, steps: seq<Step>, id: DriverId, term: int)
    requires ValidRun(s, steps)
    decreases |steps|
  {
    Holds(s.lease, id, term) && (|steps| == 0 || HeldThroughout(Next(s, steps[0]), steps[1..], id, term))
  }

  /** The row is the pair's up to `end`, and a renewal at `from` or later makes it last no less. */
  ghost predicate Leased(s: System, id: DriverId, term: int, from: real, end: real) {
    && Holds(s.lease, id, term) && end <= s.lease.value.expires
    && (id in s.drivers ==> end <= from + s.drivers[id].ttl)
  }

  lemma {:induction false} StepKeepsLease(s: System, step: Step, id: DriverId, term: int, from: real, end: real)
    requires Enabled(s, step) && Leased(s, id, term, from, end)
    requires !step.Stop? && !step.Restart? ==> from <= step.now <= end
    ensures Holds(Next(s, step).lease, id, term) <==> !AsksAbove(s, step, term)
    ensures !AsksAbove(s, step, term) ==>
      Leased(Next(s, step), id, term, if step.Stop? || step.Restart? then from else step.now, end)
  {
  }

  /** Up to its end the pair keeps the row exactly as long as nobody asks for a larger term. */
  lemma {:induction false} LeaseHoldsExactly(s: System, steps: seq<Step>, id: DriverId, term: int, from: real,
                                             end: real)
    requires ValidRun(s, steps) && InOrder(steps, from) && Until(steps, end)
    requires Leased(s, id, term, from, end)
    ensures HeldThroughout(s, steps, id, term) <==> NoneAsksAbove(s, steps, term)
    decreases |steps|
  {
    if |steps| > 0 {
      var step := steps[0];
      StepKeepsLease(s, step, id, term, from, end);
      if !AsksAbove(s, step, term) {
        LeaseHoldsExactly(Next(s, step), steps[1..], id, term,
                          if step.Stop? || step.Restart? then from else step.now, end);
      }
    }
  }

  /**
   * Whoever gets the row at a step, or renews it, is the reported leader for its lease time and no longer; and in
   * every run that ends within that time it keeps the row exactly as long as nobody asks for a larger term.
   */
  lemma {:induction false} GrantedLeaseHolds(s: System, step: Step, t: real, steps: seq<Step>)
    requires Inv(s) && Enabled(s, step) && !step.Stop? && !step.Restart?
    requires Next(s, step).drivers[step.id].isLeader
    requires step.Renew? || Writes(s.lease, Next(s, step).drivers[step.id].term, step.now)
    requires ValidRun(Next(s, step), steps) && InOrder(steps, step.now)
    requires Until(steps, step.now + s.drivers[step.id].ttl)
    ensures var s', end := Next(s, step), step.now + s.drivers[step.id].ttl;
            var term := s'.drivers[step.id].term;
            && (Leader(s'.lease, t) == Some((step.id, term)) <==> t <= end)
            && (HeldThroughout(s', steps, step.id, term) <==> NoneAsksAbove(s', steps, term))
  {
    var s', end := Next(s, step), step.now + s.drivers[step.id].ttl;
    assert DriverInv(s.lease, step.id, s.drivers[step.id]);
    LeaseHoldsExactly(s', steps, step.id, s'.drivers[step.id].term, step.now, end);
  }

  // ---- stop ----

  /**
   * A stopped driver drops its flag, leaves the row as it is, and until it is started again never leads or is
   * granted anything.
   */
  lemma {:induction false} StopIsFinal(s: System, steps: seq<Step>, id: DriverId)
    requires id in s.drivers && ValidRun(Next(s, Stop(id)), steps) && !Restarts(steps, id)
    ensures Next(s, Stop(id)).lease == s.lease
    ensures forall o :: o in s.drivers && o != id ==> Next(s, Stop(id)).drivers[o] == s.drivers[o]
    ensures var r := Run(Next(s, Stop(id)), steps);
            && id in r.drivers && r.drivers[id].stopped && !r.drivers[id].isLeader
            && r.drivers[id].term == s.drivers[id].term && r.drivers[id].notified == s.drivers[id].notified
    ensures forall g :: g in Grants(Next(s, Stop(id)), steps) ==> g.0 != id
  {
    StaysSilent(Next(s, Stop(id)), steps, id);
  }

  lemma {:induction false} StaysSilent(s: System, steps: seq<Step>, id: DriverId)
    requires ValidRun(s, steps) && !Restarts(steps, id)
    requires id in s.drivers && s.drivers[id].stopped && !s.drivers[id].isLeader
    ensures var r := Run(s, steps);
            && id in r.drivers && r.drivers[id].stopped && !r.drivers[id].isLeader
            && r.drivers[id].term == s.drivers[id].term && r.drivers[id].notified == s.drivers[id].notified
    ensures forall g :: g in Grants(s, steps) ==> g.0 != id
    decreases |steps|
  {
    if |steps| > 0 {
      StaysSilent(Next(s, steps[0]), steps[1..], id);
    }
  }

  // ---- a pass of the loop ----

  /** A pass of an unstopped driver is a try, or a renewal and, should that fail, a retry at its own time. */
  lemma {:induction false} PassIsSteps(s: System, id: DriverId, now: real, later: real)
    requires Inv(s) && id in s.drivers && !s.drivers[id].stopped && !s.drivers[id].retrying
    ensures var d := s.drivers[id];
            var steps := if !d.isLeader then [Try(id, now)]
                         else if Holds(s.lease, id, d.term) then [Renew(id, now)]
                         else [Renew(id, now), Retry(id, later)];
            && ValidRun(s, steps) && id in Run(s, steps).drivers
            && Pass(s.lease, id, d, now, later) == (Run(s, steps).lease, Run(s, steps).drivers[id])
            && (forall o :: o in s.drivers && o != id ==>
                  o in Run(s, steps).drivers && Run(s, steps).drivers[o] == s.drivers[o])
  {
    var d := s.drivers[id];
    if !d.isLeader {
      RunOne(s, Try(id, now));
    } else if Holds(s.lease, id, d.term) {
      RunOne(s, Renew(id, now));
    } else {
      RunTwo(s, Renew(id, now), Retry(id, later));
    }
  }
}
