/** The ride lifecycle calls, each running while any other processes run in between its awaits. */
module Rides {
  import opened Common
  import opened RideStateMachine
  import opened Dispatch
  import Pricing
  import opened World

  /** Why a transition failed: no such ride, a status it is not allowed from, or a change under its hands. */
  predicate Refused(before: Db, after: Db, id: RideId, to: Status, e: Error) {
    match e
    case NotFound => id !in after.rows
    case BadRequest => id in after.rows && !AssertTransition(after.rows[id].status, to)
    case Conflict => Moved(before, after, id)
    case _ => false
  }

  /** A cancellation is refused on finished rides only. */
  predicate CancelRefused(before: Db, after: Db, id: RideId, e: Error) {
    match e
    case NotFound => id !in after.rows
    case BadRequest => id in after.rows && IsTerminal(after.rows[id].status)
    case Conflict => Moved(before, after, id)
    case _ => false
  }

  lemma RefusedEarlier(a: Db, b: Db, c: Db, id: RideId, to: Status, e: Error)
    requires Later(a, b, id) && Refused(b, c, id, to, e)
    ensures Refused(a, c, id, to, e) && (to == CANCELLED ==> CancelRefused(a, c, id, e))
  {
    if e == Conflict {
      MovedEarlier(a, b, c, id);
    }
  }

  /** A ride that was completed when it was read can be rated: neither status nor update can fail it. */
  lemma CompletedStays(a: Db, b: Db, id: RideId, e: Error)
    requires id in a.rows && a.rows[id].status == COMPLETED && Later(a, b, id)
    ensures !Refused(a, b, id, COMPLETED, e)
  {
  }

  /** What the ride costs by the fare table, on the route its row keeps. */
  function Price(config: Option<Pricing.FareConfig>): Ride -> real {
    (r: Ride) => if config.Some? then Pricing.CalculateFare(config.value, r.terms.km, r.terms.min as real) else 0.0
  }

  lemma SamePrice(config: Option<Pricing.FareConfig>, r: Ride, q: Ride)
    requires r.terms == q.terms
    ensures Price(config)(r) == Price(config)(q)
  {
  }

  function NoPrice(): Ride -> real {
    (r: Ride) => 0.0
  }

  /** The row a committed transition left behind, and its event. */
  predicate Landed(db: Db, id: RideId, ride: Ride) {
    id in db.rows && db.rows[id] == ride && db.log != [] && Shows(db.log[|db.log| - 1], id, ride)
  }

  /** A ride just requested: who, when and on what terms, and nothing else yet. */
  predicate Fresh(r: Ride, rider: nat, now: Time, terms: Terms) {
    && r.rider == rider && r.createdAt == now && r.terms == terms && r.status == REQUESTED
    && r.driver == None && r.acceptedAt == None && r.arrivedAt == None && r.startedAt == None
    && r.completedAt == None && r.cancelledAt == None && r.totalFare == None && r.reason == None && r.fee == 0
    && r.riderRating == None && r.driverRating == None
  }

  /** Charged is the fare the row asks for the stored route less the discount, or nothing if that is more. */
  ghost predicate Charged(ride: Ride, c: Pricing.FareConfig, total: real) {
    exists fare :: Pricing.StoredFareFits(c, ride.terms.km, ride.terms.min, fare)
                   && total == if ride.terms.promoDiscount <= fare then fare - ride.terms.promoDiscount else 0.0
  }

  lemma PayableIsCharged(ride: Ride, c: Pricing.FareConfig, total: real)
    requires total == Payable(Price(Some(c))(ride), ride.terms.promoDiscount)
    ensures Charged(ride, c, total)
  {
    var fare := Price(Some(c))(ride);
    Pricing.FareFitsIff(c, ride.terms.km, ride.terms.min as real, fare);
    assert Pricing.StoredFareFits(c, ride.terms.km, ride.terms.min, fare);
  }

  /** The ride is completed at this time, and its fare is what was to be charged. */
  ghost predicate CompletedFor(db: Db, id: RideId, ride: Ride, c: Pricing.FareConfig, now: Time) {
    && Landed(db, id, ride) && ride.status == COMPLETED && ride.completedAt == Some(now)
    && ride.driver.Some? && ride.startedAt.Some?
    && ride.totalFare.Some? && Charged(ride, c, ride.totalFare.value)
  }

  class RidesService {
    const stores: Stores

    constructor (stores: Stores)
      ensures this.stores == stores
    {
      this.stores := stores;
    }

    /**
     Read the ride, check the table, then update on the condition that the status is still the one
     read. A call that fails has committed nothing, and its error says what was in its way; one that
     succeeds committed exactly its patch.
     */
    method Transition(pid: Pid, id: RideId, patch: Patch, now: Time) returns (r: Result<Ride>)
      requires stores.Valid() && stores.At(pid, Moving(id, patch))
      modifies stores
      ensures stores.Valid() && old(stores.history) <= stores.history && Later(old(stores.db), stores.db, id)
      ensures match r
              case Ok(ride) =>
                && Landed(stores.db, id, ride) && Carries(ride, patch)
                && (if After(id, patch, now).Some? then stores.At(pid, After(id, patch, now).value)
                    else pid !in stores.procs)
              case Err(e) => pid !in stores.procs && Refused(old(stores.db), stores.db, id, Target(patch), e)
      ensures stores.done(pid) == if r.Ok? then old(stores.done)(pid) + [(id, patch)] else old(stores.done)(pid)
      ensures stores.Quiet() && r.Err? ==> r.error != Conflict && stores.db == old(stores.db)
    {
      var ride := stores.ReadRide(pid, id, now, NoPrice());
      if ride.None? {
        return Err(NotFound);
      }
      var from := ride.value.status;
      if !AssertTransition(from, Target(patch)) {
        return Err(BadRequest);
      }
      ghost var read := stores.db;
      var updated := stores.UpdateRide(pid, id, patch, from, now);
      LaterOn(old(stores.db), read, stores.db, id);
      if updated.None? {
        Overtaken(old(stores.db), read, stores.db, id, from);
        return Err(Conflict);
      }
      r := Ok(updated.value);
    }

    /** Insert the ride and its RIDE_REQUESTED event; the matching job is queued afterwards. */
    method CreateRide(pid: Pid, id: RideId, rider: nat, now: Time, terms: Terms) returns (r: Result<Ride>)
      requires stores.Valid() && pid !in stores.procs
      modifies stores
      ensures stores.Valid() && old(stores.history) <= stores.history && pid !in stores.procs
      ensures r.Ok? ==>
                Landed(stores.db, id, r.value) && Fresh(r.value, rider, now, terms) && id !in old(stores.db.rows)
      ensures r.Err? ==> r.error == Conflict && id in stores.db.rows
      ensures stores.done(pid) == old(stores.done)(pid)
    {
      var ride := NewRide(rider, now, terms);
      var saved := stores.InsertRide(pid, id, ride);
      r := if saved then Ok(ride) else Err(Conflict);
    }

    method DriverArrive(pid: Pid, id: RideId, now: Time) returns (r: Result<Ride>)
      requires stores.Valid() && pid !in stores.procs
      modifies stores
      ensures stores.Valid() && old(stores.history) <= stores.history && pid !in stores.procs
      ensures r.Ok? ==> r.value.status == ARRIVED && r.value.arrivedAt == Some(now) && r.value.driver.Some?
      ensures r.Err? ==> Refused(old(stores.db), stores.db, id, ARRIVED, r.error)
      ensures stores.done(pid) ==
                if r.Ok? then old(stores.done)(pid) + [(id, Arrive(now))] else old(stores.done)(pid)
    {
      stores.Launched(pid, Moving(id, Arrive(now)));
      r := Transition(pid, id, Arrive(now), now);
      if r.Ok? {
        FilledNow(stores.history, stores.View(), stores.done, id);
      }
    }

    method DriverStart(pid: Pid, id: RideId, now: Time) returns (r: Result<Ride>)
      requires stores.Valid() && pid !in stores.procs
      modifies stores
      ensures stores.Valid() && old(stores.history) <= stores.history && pid !in stores.procs
      ensures r.Ok? ==>
                && r.value.status == IN_PROGRESS && r.value.startedAt == Some(now)
                && r.value.driver.Some? && r.value.arrivedAt.Some?
      ensures r.Err? ==> Refused(old(stores.db), stores.db, id, IN_PROGRESS, r.error)
      ensures stores.done(pid) ==
                if r.Ok? then old(stores.done)(pid) + [(id, Start(now))] else old(stores.done)(pid)
    {
      stores.Launched(pid, Moving(id, Start(now)));
      r := Transition(pid, id, Start(now), now);
      if r.Ok? {
        FilledNow(stores.history, stores.View(), stores.done, id);
      }
    }

    /**
     The final fare is the fare of the stored route less the discount locked at request time, never
     below zero; `config` is the row of the fare table in force, if there is one.
     */
    method CompleteRide(pid: Pid, id: RideId, config: Option<Pricing.FareConfig>, now: Time) returns (r: Result<Ride>)
      requires stores.Valid() && pid !in stores.procs
      modifies stores
      ensures stores.Valid() && old(stores.history) <= stores.history && pid !in stores.procs
      ensures Later(old(stores.db), stores.db, id)
      ensures r.Ok? ==> config.Some? && CompletedFor(stores.db, id, r.value, config.value, now)
      ensures r.Err? ==> (config.None? && r.error == NotFound)
                         || Refused(old(stores.db), stores.db, id, COMPLETED, r.error)
      ensures stores.done(pid) == old(stores.done)(pid) +
                if r.Ok? then [(id, Complete(r.value.totalFare.value, now))] else []
    {
      stores.Launched(pid, Completing(id));
      r := CompleteLaunched(pid, id, config, now);
    }

    method CompleteLaunched(pid: Pid, id: RideId, config: Option<Pricing.FareConfig>, now: Time)
      returns (r: Result<Ride>)
      requires stores.Valid() && stores.At(pid, Completing(id))
      modifies stores
      ensures stores.Valid() && old(stores.history) <= stores.history && pid !in stores.procs
      ensures Later(old(stores.db), stores.db, id)
      ensures r.Ok? ==> config.Some? && CompletedFor(stores.db, id, r.value, config.value, now)
      ensures r.Err? ==> (config.None? && r.error == NotFound)
                         || Refused(old(stores.db), stores.db, id, COMPLETED, r.error)
      ensures stores.done(pid) == old(stores.done)(pid) +
                if r.Ok? then [(id, Complete(r.value.totalFare.value, now))] else []
    {
      var ride := stores.ReadRide(pid, id, now, Price(config));
      if ride.None? {
        return Err(NotFound);
      }
      ghost var read := stores.db;
      r := CompleteRead(pid, id, config, ride.value, now);
      LaterOn(old(stores.db), read, stores.db, id);
      if r.Err? && Refused(read, stores.db, id, COMPLETED, r.error) {
        RefusedEarlier(old(stores.db), read, stores.db, id, COMPLETED, r.error);
      }
    }

    method CompleteRead(pid: Pid, id: RideId, config: Option<Pricing.FareConfig>, ride: Ride, now: Time)
      returns (r: Result<Ride>)
      requires stores.Valid() && id in stores.db.rows && stores.db.rows[id] == ride
      requires stores.At(pid, Moving(id, Complete(Payable(Price(config)(ride), ride.terms.promoDiscount), now)))
      modifies stores
      ensures stores.Valid() && old(stores.history) <= stores.history && pid !in stores.procs
      ensures Later(old(stores.db), stores.db, id)
      ensures r.Ok? ==> config.Some? && CompletedFor(stores.db, id, r.value, config.value, now)
      ensures r.Err? ==> (config.None? && r.error == NotFound)
                         || Refused(old(stores.db), stores.db, id, COMPLETED, r.error)
      ensures stores.done(pid) == old(stores.done)(pid) +
                if r.Ok? then [(id, Complete(r.value.totalFare.value, now))] else []
    {
      if config.None? {
        stores.Abort(pid, id);
        return Err(NotFound);
      }
      r := CompleteAt(pid, id, Payable(Price(config)(ride), ride.terms.promoDiscount), now);
      if r.Ok? {
        SamePrice(config, ride, r.value);
        PayableIsCharged(r.value, config.value, r.value.totalFare.value);
      }
    }

    method CompleteAt(pid: Pid, id: RideId, totalFare: real, now: Time) returns (r: Result<Ride>)
      requires stores.Valid() && stores.At(pid, Moving(id, Complete(totalFare, now))) && id in stores.db.rows
      modifies stores
      ensures stores.Valid() && old(stores.history) <= stores.history && pid !in stores.procs
      ensures Later(old(stores.db), stores.db, id)
      ensures r.Ok? ==>
                && Landed(stores.db, id, r.value) && r.value.status == COMPLETED && r.value.completedAt == Some(now)
                && r.value.driver.Some? && r.value.startedAt.Some?
                && r.value.totalFare == Some(totalFare) && r.value.terms == old(stores.db.rows[id].terms)
      ensures r.Err? ==> Refused(old(stores.db), stores.db, id, COMPLETED, r.error)
      ensures stores.done(pid) == old(stores.done)(pid) + if r.Ok? then [(id, Complete(totalFare, now))] else []
    {
      r := Transition(pid, id, Complete(totalFare, now), now);
      if r.Ok? {
        FilledNow(stores.history, stores.View(), stores.done, id);
      }
    }

    /** Cancel with the fee rules; the refund is the locked fare less the fee. */
    method Cancel(pid: Pid, id: RideId, reason: Reason, party: Party, now: Time) returns (r: Result<(Ride, real)>)
      requires stores.Valid() && pid !in stores.procs
      modifies stores
      ensures stores.Valid() && old(stores.history) <= stores.history && pid !in stores.procs
      ensures r.Ok? ==> CancelledFor(stores.db, id, r.value.0, r.value.1, reason, party, now)
      ensures r.Err? ==> CancelRefused(old(stores.db), stores.db, id, r.error)
      ensures stores.done(pid) == old(stores.done)(pid) +
                if r.Ok? then [(id, Dispatch.Cancel(reason, r.value.0.fee, now))] else []
    {
      stores.Launched(pid, Cancelling(id, reason, party));
      r := CancelLaunched(pid, id, reason, party, now);
    }

    method CancelLaunched(pid: Pid, id: RideId, reason: Reason, party: Party, now: Time)
      returns (r: Result<(Ride, real)>)
      requires stores.Valid() && stores.At(pid, Cancelling(id, reason, party))
      modifies stores
      ensures stores.Valid() && old(stores.history) <= stores.history && pid !in stores.procs
      ensures Later(old(stores.db), stores.db, id)
      ensures r.Ok? ==> CancelledFor(stores.db, id, r.value.0, r.value.1, reason, party, now)
      ensures r.Err? ==> CancelRefused(old(stores.db), stores.db, id, r.error)
      ensures stores.done(pid) == old(stores.done)(pid) +
                if r.Ok? then [(id, Dispatch.Cancel(reason, r.value.0.fee, now))] else []
    {
      var ride := stores.ReadRide(pid, id, now, NoPrice());
      if ride.None? {
        return Err(NotFound);
      }
      if !CanCancel(ride.value.status) {
        CanCancelIffNotTerminal(ride.value.status);
        return Err(BadRequest);
      }
      ghost var read := stores.db;
      var fee := CancellationFee(party, ride.value.createdAt, now);
      r := CancelRead(pid, id, reason, fee, now);
      LaterOn(old(stores.db), read, stores.db, id);
      if r.Err? {
        RefusedEarlier(old(stores.db), read, stores.db, id, CANCELLED, r.error);
      }
    }

    /** The rest of it, once the ride has been read and the fee is known. */
    method CancelRead(pid: Pid, id: RideId, reason: Reason, fee: int, now: Time) returns (r: Result<(Ride, real)>)
      requires stores.Valid() && stores.At(pid, Moving(id, Dispatch.Cancel(reason, fee, now))) && id in stores.db.rows
      modifies stores
      ensures stores.Valid() && old(stores.history) <= stores.history && pid !in stores.procs
      ensures Later(old(stores.db), stores.db, id)
      ensures r.Ok? ==>
                && Landed(stores.db, id, r.value.0) && Carries(r.value.0, Dispatch.Cancel(reason, fee, now))
                && r.value.0.createdAt == old(stores.db.rows[id].createdAt)
                && r.value.1 == r.value.0.terms.estimatedFare - fee as real
      ensures r.Err? ==> Refused(old(stores.db), stores.db, id, CANCELLED, r.error)
      ensures stores.done(pid) == old(stores.done)(pid) +
                if r.Ok? then [(id, Dispatch.Cancel(reason, fee, now))] else []
    {
      var cancelled := Transition(pid, id, Dispatch.Cancel(reason, fee, now), now);
      if cancelled.Err? {
        return Err(cancelled.error);
      }
      r := Ok((cancelled.value, cancelled.value.terms.estimatedFare - fee as real));
    }

    /** Rating goes through `transition` too; it succeeds exactly on completed rides and leaves them so. */
    method RateRide(pid: Pid, id: RideId, asRider: bool, rating: int) returns (r: Result<()>)
      requires stores.Valid() && pid !in stores.procs
      modifies stores
      ensures stores.Valid() && old(stores.history) <= stores.history && pid !in stores.procs
      ensures r.Ok? <==> id in stores.db.rows && stores.db.rows[id].status == COMPLETED
      ensures r.Ok? ==> Rated(stores.db.rows[id], asRider, rating)
      ensures r.Err? ==> r.error == if id in stores.db.rows then BadRequest else NotFound
      ensures stores.done(pid) == old(stores.done)(pid) + if r.Ok? then [(id, Rate(asRider, rating))] else []
    {
      stores.Launched(pid, Scoring(id, asRider, rating));
      var ride := stores.ReadRide(pid, id, 0, NoPrice());
      if ride.None? {
        return Err(NotFound);
      }
      if ride.value.status != COMPLETED {
        return Err(BadRequest);
      }
      r := RateCompleted(pid, id, asRider, rating);
    }

    method RateCompleted(pid: Pid, id: RideId, asRider: bool, rating: int) returns (r: Result<()>)
      requires stores.Valid() && stores.At(pid, Moving(id, Rate(asRider, rating)))
      requires id in stores.db.rows && stores.db.rows[id].status == COMPLETED
      modifies stores
      ensures stores.Valid() && old(stores.history) <= stores.history && pid !in stores.procs
      ensures r.Ok? && id in stores.db.rows && Rated(stores.db.rows[id], asRider, rating)
      ensures stores.done(pid) == old(stores.done)(pid) + [(id, Rate(asRider, rating))]
    {
      var rated := Transition(pid, id, Rate(asRider, rating), 0);
      match rated {
        case Ok(_) =>
          r := Ok(());
        case Err(e) =>
          r := Err(e);
          CompletedStays(old(stores.db), stores.db, id, e);
      }
    }
  }

  /** The completed ride has this rating, in the column of the one who gave it. */
  predicate Rated(ride: Ride, asRider: bool, rating: int) {
    ride.status == COMPLETED && (if asRider then ride.riderRating else ride.driverRating) == Some(rating)
  }

  /** The ride is cancelled with the reason given, the fee the rules ask for, and the rest refunded. */
  predicate CancelledFor(db: Db, id: RideId, ride: Ride, refund: real, reason: Reason, party: Party, now: Time) {
    && Landed(db, id, ride) && ride.status == CANCELLED && ride.reason == Some(reason) && ride.cancelledAt == Some(now)
    && ride.fee in {0, 50}
    && (ride.fee == 50 <==> party == DRIVER || (party == RIDER && now - ride.createdAt > 120000))
    && refund == ride.terms.estimatedFare - ride.fee as real
  }
}
