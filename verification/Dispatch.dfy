/**
 The ride-dispatch protocol as a state machine.

 Every process (an HTTP handler, a matching job, a driver's answer) is a program counter plus the
 local variables it still needs. One action runs one process from one await to the next, so a
 sequence of actions is an interleaving of any number of processes.
 */
module Dispatch {
  import opened Common
  import opened RideStateMachine

  type RideId = nat
  type DriverId = nat
  type Pid = nat
  type Time = int  // milliseconds

  datatype Reason = USER_CANCELLED | DRIVER_CANCELLED | NO_DRIVER_FOUND | SYSTEM
  datatype Party = RIDER | DRIVER | BACKEND

  /** What the request settles for good: the locked fare, the discount, and the route as the table stores it. */
  datatype Terms = Terms(estimatedFare: real, promoDiscount: real, km: real, min: int)

  datatype Ride = Ride(
    rider: nat, createdAt: Time, terms: Terms,
    status: Status, driver: Option<DriverId>,
    acceptedAt: Option<Time>, arrivedAt: Option<Time>, startedAt: Option<Time>,
    completedAt: Option<Time>, cancelledAt: Option<Time>,
    totalFare: Option<real>, reason: Option<Reason>, fee: int,
    riderRating: Option<int>, driverRating: Option<int>)

  /** One row of the outbox: what a committed write tells the rest of the system about a ride. */
  datatype Event = Event(
    ride: RideId, rider: nat, status: Status, driver: Option<DriverId>,
    totalFare: Option<real>, reason: Option<Reason>, fee: int)

  /** The database: the rides table and the outbox rows in commit order. */
  datatype Db = Db(rows: map<RideId, Ride>, log: seq<Event>)

  /** The calls of `transition`, by the columns they set. `Match` sets only the status. */
  datatype Patch =
    | Match(driver: DriverId)
    | Accept(driver: DriverId, at: Time)
    | Arrive(at: Time)
    | Start(at: Time)
    | Complete(totalFare: real, at: Time)
    | Rate(asRider: bool, rating: int)
    | Cancel(reason: Reason, fee: int, at: Time)

  function Target(p: Patch): Status {
    match p
    case Match(_) => MATCHING
    case Accept(_, _) => ACCEPTED
    case Arrive(_) => ARRIVED
    case Start(_) => IN_PROGRESS
    case Complete(_, _) => COMPLETED
    case Rate(_, _) => COMPLETED
    case Cancel(_, _, _) => CANCELLED
  }

  function Patched(r: Ride, p: Patch): Ride {
    var r := r.(status := Target(p));
    match p
    case Match(_) => r
    case Accept(d, at) => r.(driver := Some(d), acceptedAt := Some(at))
    case Arrive(at) => r.(arrivedAt := Some(at))
    case Start(at) => r.(startedAt := Some(at))
    case Complete(fare, at) => r.(totalFare := Some(fare), completedAt := Some(at))
    case Rate(asRider, n) => if asRider then r.(riderRating := Some(n)) else r.(driverRating := Some(n))
    case Cancel(reason, fee, at) => r.(reason := Some(reason), fee := fee, cancelledAt := Some(at))
  }

  function NewRide(rider: nat, at: Time, terms: Terms): Ride {
    Ride(rider, at, terms, REQUESTED, None, None, None, None, None, None,
         None, None, 0, None, None)
  }

  function Snapshot(id: RideId, r: Ride): Event {
    Event(id, r.rider, r.status, r.driver, r.totalFare, r.reason, r.fee)
  }

  /** The event tells about the ride what the row says, column by column. */
  predicate Shows(e: Event, id: RideId, r: Ride) {
    && e.ride == id && e.rider == r.rider && e.status == r.status && e.driver == r.driver
    && e.totalFare == r.totalFare && e.reason == r.reason && e.fee == r.fee
  }

  /** The columns a call sets are in the row as it set them. */
  predicate Carries(r: Ride, p: Patch) {
    match p
    case Match(_) => r.status == MATCHING
    case Accept(d, at) => r.status == ACCEPTED && r.driver == Some(d) && r.acceptedAt == Some(at)
    case Arrive(at) => r.status == ARRIVED && r.arrivedAt == Some(at)
    case Start(at) => r.status == IN_PROGRESS && r.startedAt == Some(at)
    case Complete(fare, at) => r.status == COMPLETED && r.totalFare == Some(fare) && r.completedAt == Some(at)
    case Rate(asRider, n) => r.status == COMPLETED && (if asRider then r.riderRating else r.driverRating) == Some(n)
    case Cancel(reason, fee, at) =>
      r.status == CANCELLED && r.reason == Some(reason) && r.fee == fee && r.cancelledAt == Some(at)
  }

  /** One transaction: write the row and append its event. */
  function Write(db: Db, id: RideId, r: Ride): Db {
    Db(db.rows[id := r], db.log + [Snapshot(id, r)])
  }

  /** The conditional update is keyed on the observed status; no matching row is a conflict. */
  predicate Matches(db: Db, id: RideId, seen: Status) {
    id in db.rows && db.rows[id].status == seen
  }

  /** The cancellation fee: riders cancel free for two minutes, drivers never, the system always. */
  function CancellationFee(party: Party, createdAt: Time, now: Time): int {
    match party
    case RIDER => if now - createdAt > 120000 then 50 else 0
    case DRIVER => 50
    case BACKEND => 0
  }

  function Payable(fare: real, discount: real): real {
    if fare - discount < 0.0 then 0.0 else fare - discount
  }

  /** Where a process stands, named after what it does next. */
  datatype Proc =
    | Matching(id: RideId)                                  // matchRide: read the ride
    | Waiting(id: RideId)                                   // send offers, poll the claim key
    | Stranded(id: RideId)                                  // handleNoDrivers: read the ride
    | Answering(id: RideId, driver: DriverId)               // accept: read the offer key
    | Claiming(id: RideId, driver: DriverId)                // SET the claim key NX
    | Claimed(id: RideId, driver: DriverId)                 // delete the offer key
    | Finalizing(id: RideId, driver: DriverId)              // finalizeMatch: read the ride
    | Releasing(id: RideId, driver: DriverId)               // delete the claim key
    | Cancelling(id: RideId, reason: Reason, party: Party)     // cancel: read the ride
    | Completing(id: RideId)                                // completeRide: read the ride
    | Scoring(id: RideId, asRider: bool, rating: int)       // rateRide: read the ride
    | Moving(id: RideId, patch: Patch)                      // transition: read the ride
    | Seen(id: RideId, patch: Patch, seen: Status)          // transition: conditional update

  datatype State = State(
    db: Db,
    claims: map<RideId, DriverId>,
    offers: set<(RideId, DriverId)>,
    procs: map<Pid, Proc>)

  datatype Action =
    | Create(id: RideId, rider: nat, at: Time, terms: Terms)
    | Launch(pid: Pid, proc: Proc)
    | Step(pid: Pid, now: Time, fare: real)   // run a process to its next await
    | GiveUp(pid: Pid)                        // no candidates, or the wait timed out
    | Offer(pid: Pid, driver: DriverId)
    | Withdraw(id: RideId, driver: DriverId)  // the driver declines, or the offer key expires
    | Expire(id: RideId)                      // the claim key expires
    | Crash(pid: Pid)

  /** The entry points; everything else is reached by running. */
  predicate EntryPoint(p: Proc) {
    || p.Matching? || p.Answering? || p.Cancelling? || p.Completing? || p.Scoring?
    || (p.Moving? && (p.patch.Arrive? || p.patch.Start?))
  }

  /** What one uninterrupted piece of a process leaves behind; no `next` means it returned or threw. */
  datatype Outcome = Outcome(
    db: Db, claims: map<RideId, DriverId>, offers: set<(RideId, DriverId)>, next: Option<Proc>)

  function After(id: RideId, p: Patch, now: Time): Option<Proc> {
    match p
    case Match(d) => Some(Moving(id, Accept(d, now)))
    case Accept(d, _) => Some(Releasing(id, d))
    case _ => None
  }

  function Resume(s: State, p: Proc, now: Time, fare: real): Outcome {
    var stay := Outcome(s.db, s.claims, s.offers, None);
    var id := p.id;
    var rows := s.db.rows;
    match p
    case Matching(_) =>
      if id in rows && rows[id].status == REQUESTED then stay.(next := Some(Waiting(id))) else stay
    case Waiting(_) =>
      stay.(next := Some(if id in s.claims then Finalizing(id, s.claims[id]) else p))
    case Stranded(_) =>
      if id in rows && Open(rows[id].status)
      then stay.(next := Some(Cancelling(id, NO_DRIVER_FOUND, BACKEND))) else stay
    case Answering(_, d) =>
      if (id, d) in s.offers then stay.(next := Some(Claiming(id, d))) else stay
    case Claiming(_, d) =>
      if id in s.claims then stay
      else stay.(claims := s.claims[id := d], next := Some(Claimed(id, d)))
    case Claimed(_, d) =>
      stay.(offers := s.offers - {(id, d)}, next := Some(Finalizing(id, d)))
    case Finalizing(_, d) =>
      if id !in rows || !Open(rows[id].status) then stay
      else if rows[id].status == REQUESTED then stay.(next := Some(Moving(id, Match(d))))
      else stay.(next := Some(Moving(id, Accept(d, now))))
    case Releasing(_, d) =>
      stay.(claims := s.claims - {id})
    case Cancelling(_, reason, party) =>
      if id in rows && CanCancel(rows[id].status)
      then stay.(next := Some(Moving(id, Cancel(reason, CancellationFee(party, rows[id].createdAt, now), now))))
      else stay
    case Completing(_) =>
      if id in rows
      then stay.(next := Some(Moving(id, Complete(Payable(fare, rows[id].terms.promoDiscount), now)))) else stay
    case Scoring(_, asRider, n) =>
      if id in rows && rows[id].status == COMPLETED
      then stay.(next := Some(Moving(id, Rate(asRider, n)))) else stay
    case Moving(_, patch) =>
      if id in rows && AssertTransition(rows[id].status, Target(patch))
      then stay.(next := Some(Seen(id, patch, rows[id].status))) else stay
    case Seen(_, patch, seen) =>
      if Matches(s.db, id, seen)
      then stay.(db := Write(s.db, id, Patched(rows[id], patch)), next := After(id, patch, now))
      else stay
  }

  function Put(procs: map<Pid, Proc>, pid: Pid, next: Option<Proc>): map<Pid, Proc> {
    match next
    case None => procs - {pid}
    case Some(p) => procs[pid := p]
  }

  /** An action that is not possible leaves the state alone. */
  function Next(s: State, a: Action): State {
    match a
    case Create(id, rider, at, terms) =>
      if id in s.db.rows then s else s.(db := Write(s.db, id, NewRide(rider, at, terms)))
    case Launch(pid, p) =>
      if pid !in s.procs && EntryPoint(p) then s.(procs := s.procs[pid := p]) else s
    case Step(pid, now, fare) =>
      if pid !in s.procs then s
      else
        var o := Resume(s, s.procs[pid], now, fare);
        State(o.db, o.claims, o.offers, Put(s.procs, pid, o.next))
    case GiveUp(pid) =>
      if pid in s.procs && s.procs[pid].Waiting?
      then s.(procs := s.procs[pid := Stranded(s.procs[pid].id)]) else s
    case Offer(pid, d) =>
      if pid in s.procs && s.procs[pid].Waiting?
      then s.(offers := s.offers + {(s.procs[pid].id, d)}) else s
    case Withdraw(id, d) => s.(offers := s.offers - {(id, d)})
    case Expire(id) => s.(claims := s.claims - {id})
    case Crash(pid) => s.(procs := s.procs - {pid})
  }

  function Init(): State {
    State(Db(map[], []), map[], {}, map[])
  }

  function Run(s: State, acts: seq<Action>): State {
    if acts == [] then s else Next(Run(s, acts[..|acts| - 1]), acts[|acts| - 1])
  }

  lemma RunSnoc(s: State, acts: seq<Action>, a: Action)
    ensures Run(s, acts + [a]) == Next(Run(s, acts), a)
  {
    assert (acts + [a])[..|acts|] == acts;
  }

  lemma {:induction false} RunConcat(s: State, a: seq<Action>, b: seq<Action>)
    ensures Run(s, a + b) == Run(Run(s, a), b)
  {
    if b == [] {
      assert a + b == a;
    } else {
      var n := |b| - 1;
      assert (a + b)[..|a| + n] == a + b[..n];
      RunConcat(s, a, b[..n]);
    }
  }

  /** What an action does to the database, if anything. */
  datatype Change = Nothing | Inserted(id: RideId, ride: Ride) | Updated(id: RideId, patch: Patch, seen: Status)

  function ChangeOf(s: State, a: Action): Change {
    match a
    case Create(id, rider, at, terms) =>
      if id in s.db.rows then Nothing else Inserted(id, NewRide(rider, at, terms))
    case Step(pid, _, _) =>
      if pid in s.procs && s.procs[pid].Seen? && Matches(s.db, s.procs[pid].id, s.procs[pid].seen)
      then Updated(s.procs[pid].id, s.procs[pid].patch, s.procs[pid].seen) else Nothing
    case _ => Nothing
  }

  /** Rows and event log only ever change together, in one transaction per committed write. */
  lemma OneTransactionPerChange(s: State, a: Action)
    ensures match ChangeOf(s, a)
            case Nothing => Next(s, a).db == s.db
            case Inserted(id, r) => id !in s.db.rows && Next(s, a).db == Write(s.db, id, r)
            case Updated(id, p, seen) =>
              Matches(s.db, id, seen) && Next(s, a).db == Write(s.db, id, Patched(s.db.rows[id], p))
  {
  }
}
