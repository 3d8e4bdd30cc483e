/** mesh/driver/ha/election.py over the leadership row of mesh/state/sqlite_store.py. */
module Election {
  import opened Models

  type DriverId = string

  datatype Row = Row(driver: DriverId, term: int, expires: real)

  /** The leadership table: empty or its single row. */
  type Lease = Option<Row>

  // ---- the store's three operations on the row ----

  function TryAcquire(lease: Lease, driver: DriverId, term: int, ttl: real, now: real): (Lease, bool) {
    match lease
    case None => (Some(Row(driver, term, now + ttl)), true)
    case Some(row) =>
      if row.expires < now || term > row.term then (Some(Row(driver, term, now + ttl)), true)
      else (lease, row.driver == driver && term >= row.term)
  }

  function RenewLease(lease: Lease, driver: DriverId, term: int, ttl: real, now: real): (Lease, bool) {
    if lease.None? || lease.value.driver != driver || lease.value.term != term then (lease, false)
    else (Some(lease.value.(expires := now + ttl)), true)
  }

  function Leader(lease: Lease, now: real): Option<(DriverId, int)> {
    if lease.Some? && lease.value.expires >= now then Some((lease.value.driver, lease.value.term)) else None
  }

  // ---- one driver ----

  /** A `LeaderElection` object: `notified` is what its callbacks were told, in order. */
  datatype Driver = Driver(ttl: real, term: int, isLeader: bool, stopped: bool, retrying: bool, notified: seq<bool>)

  function Fresh(ttl: real): Driver { Driver(ttl, 0, false, false, false, []) }

  /** `_try_become_leader`; it also ends the second half of a pass whose renewal failed. */
  function TryStep(lease: Lease, id: DriverId, d: Driver, now: real): (Lease, Driver) {
    if d.stopped then (lease, d.(retrying := false))
    else
      var (lease', acquired) := TryAcquire(lease, id, d.term + 1, d.ttl, now);
      var log := if acquired != d.isLeader then d.notified + [acquired] else d.notified;
      (lease', d.(term := d.term + 1, isLeader := acquired, retrying := false, notified := log))
  }

  /** The leader's half of a pass: renew, and on failure step down and go on to try again. */
  function RenewStep(lease: Lease, id: DriverId, d: Driver, now: real): (Lease, Driver) {
    var (lease', ok) := RenewLease(lease, id, d.term, d.ttl, now);
    if ok then (lease', d)
    else (lease', d.(isLeader := false, retrying := true, notified := d.notified + [false]))
  }

  /** One pass of `_renew_loop` with nothing in between its store calls. */
  function Pass(lease: Lease, id: DriverId, d: Driver, now: real, later: real): (Lease, Driver) {
    if d.stopped then (lease, d)
    else if !d.isLeader then TryStep(lease, id, d, now)
    else
      var (lease', d') := RenewStep(lease, id, d, now);
      if d'.retrying then TryStep(lease', id, d', later) else (lease', d')
  }

  // ---- the same as objects ----

  class StateStore {
    var lease: Lease

    constructor ()
      ensures lease == None
    {
      lease := None;
    }

    method TryAcquireLeadership(driver: DriverId, term: int, ttl: real, now: real) returns (acquired: bool)
      modifies this
      ensures (lease, acquired) == TryAcquire(old(lease), driver, term, ttl, now)
    {
      var expires := now + ttl;
      if lease.None? {
        lease := Some(Row(driver, term, expires));
        return true;
      }
      var row := lease.value;
      if row.expires < now || term > row.term {
        lease := Some(Row(driver, term, expires));
        return true;
      }
      acquired := row.driver == driver && term >= row.term;
    }

    method RenewLeadership(driver: DriverId, term: int, ttl: real, now: real) returns (ok: bool)
      modifies this
      ensures (lease, ok) == RenewLease(old(lease), driver, term, ttl, now)
    {
      var expires := now + ttl;
      if lease.None? || lease.value.driver != driver || lease.value.term != term {
        return false;
      }
      lease := Some(lease.value.(expires := expires));
      ok := true;
    }

    /** The pair that could be renewed now, if its lease has not run out. */
    method GetLeader(now: real) returns (r: Option<(DriverId, int)>)
      ensures r == Leader(lease, now)
      ensures forall id: DriverId, term: int ::
        r == Some((id, term)) <==> RenewLease(lease, id, term, 0.0, now).1 && lease.value.expires >= now
    {
      if lease.Some? && lease.value.expires >= now {
        return Some((lease.value.driver, lease.value.term));
      }
      r := None;
    }
  }

  class LeaderElection {
    const driverId: DriverId
    const leaseSeconds: real
    var term: int
    var isLeader: bool
    var stopped: bool
    var notified: seq<bool>

    function View(): Driver
      reads this
    {
      Driver(leaseSeconds, term, isLeader, stopped, false, notified)
    }

    constructor (driverId: DriverId, leaseSeconds: real)
      ensures View() == Fresh(leaseSeconds) && this.driverId == driverId
    {
      this.driverId, this.leaseSeconds := driverId, leaseSeconds;
      term, isLeader, stopped, notified := 0, false, false, [];
    }

    method Stop()
      modifies this
      ensures View() == old(View()).(stopped := true, isLeader := false)
    {
      stopped := true;
      isLeader := false;
    }

    method TryBecomeLeader(store: StateStore, now: real)
      modifies this, store
      ensures (store.lease, View()) == TryStep(old(store.lease), driverId, old(View()), now)
    {
      if stopped {
        return;
      }
      term := term + 1;
      var acquired := store.TryAcquireLeadership(driverId, term, leaseSeconds, now);
      if acquired != isLeader {
        isLeader := acquired;
        notified := notified + [isLeader];
      }
    }

    /** `current_leader`: the pair that could be renewed now, if its lease has not run out. */
    method CurrentLeader(store: StateStore, now: real) returns (r: Option<(DriverId, int)>)
      ensures forall id: DriverId, term: int ::
        r == Some((id, term)) <==> RenewLease(store.lease, id, term, 0.0, now).1 && store.lease.value.expires >= now
    {
      r := store.GetLeader(now);
    }

    /** The body of `_renew_loop`; `now` and `later` are the clock at its one or two store calls. */
    method RenewPass(store: StateStore, now: real, later: real)
      modifies this, store
      ensures (store.lease, View()) == Pass(old(store.lease), driverId, old(View()), now, later)
    {
      if stopped {
        return;
      }
      if isLeader {
        var ok := store.RenewLeadership(driverId, term, leaseSeconds, now);
        if !ok {
          isLeader := false;
          notified := notified + [false];
          TryBecomeLeader(store, later);
        }
      } else {
        TryBecomeLeader(store, now);
      }
    }
  }
}
