/** The whole ride request: quote, price lock, promo, creation, and compensation when creation fails. */
module RequestRide {
  import opened Common
  import opened Dispatch
  import Pricing
  import Rounding
  import Promos
  import Rides

  /** The fare table has one row per city and ride type. */
  ghost predicate Unique(table: seq<Pricing.FareConfig>) {
    forall i, j :: 0 <= i < j < |table| ==>
      table[i].city != table[j].city || table[i].rideType != table[j].rideType
  }

  /** This row of the table is in force for a city and ride type. */
  predicate InForce(table: seq<Pricing.FareConfig>, city: nat, t: Pricing.RideType, c: Pricing.FareConfig) {
    c in table && c.city == city && c.isActive && c.rideType == t
  }

  lemma OneRowInForce(
    table: seq<Pricing.FareConfig>, city: nat, t: Pricing.RideType, c: Pricing.FareConfig, d: Pricing.FareConfig)
    requires Unique(table) && InForce(table, city, t, c) && InForce(table, city, t, d)
    ensures c == d
  {
    var i :| 0 <= i < |table| && table[i] == c;
    var j :| 0 <= j < |table| && table[j] == d;
    assert i == j;
  }

  lemma {:induction false} NoRowTwice(table: seq<Pricing.FareConfig>, c: Pricing.FareConfig)
    requires Unique(table)
    ensures multiset(table)[c] <= 1
  {
    if table != [] {
      assert table == [table[0]] + table[1..];
      NoRowTwice(table[1..], c);
      if table[0] == c {
        assert c !in table[1..];
      }
    }
  }

  lemma RowInForce(table: seq<Pricing.FareConfig>, city: nat, t: Pricing.RideType, rows: seq<Pricing.FareConfig>)
    requires Unique(table) && rows != []
    requires forall c :: multiset(rows)[c] ==
               if c.city == city && c.isActive && c.rideType == t then multiset(table)[c] else 0
    ensures |rows| == 1 && InForce(table, city, t, rows[0])
  {
    assert rows[0] in multiset(rows) && rows[0] in multiset(table);
    if |rows| > 1 {
      assert rows[1] in multiset(rows) && rows[1] in multiset(table);
      OneRowInForce(table, city, t, rows[0], rows[1]);
      assert rows == [rows[0]] + [rows[1]] + rows[2..];
      NoRowTwice(table, rows[0]);
    }
  }

  class Requests {
    const rides: Rides.RidesService
    const promos: Promos.PromosService
    const table: seq<Pricing.FareConfig>

    constructor (rides: Rides.RidesService, promos: Promos.PromosService, table: seq<Pricing.FareConfig>)
      ensures this.rides == rides && this.promos == promos && this.table == table
    {
      this.rides, this.promos, this.table := rides, promos, table;
    }

    /** What the quote shows for the one ride type asked for; the price lock takes exactly this. */
    method LockPrice(city: nat, t: Pricing.RideType, km: real, min: real, m: real)
      returns (r: Result<real>, ghost config: Option<Pricing.FareConfig>)
      requires Unique(table)
      ensures r.Ok? <==> config.Some?
      ensures r.Ok? ==> InForce(table, city, t, config.value) && Pricing.QuoteFits(config.value, km, min, m, r.value)
      ensures r.Err? ==> r.error == NotFound && forall c :: c in table ==> !InForce(table, city, t, c)
    {
      var quote, rows := Pricing.GetQuote(table, city, {t}, km, min, m);
      config := None;
      if quote.Err? {
        return Err(NotFound), None;
      }
      ghost var c :| c in table && c.city == city && c.isActive && c.rideType in {t};
      assert c in multiset(table) && multiset(rows)[c] == multiset(table)[c];
      assert c in multiset(rows);
      RowInForce(table, city, t, rows);
      config := Some(rows[0]);
      r := Ok(quote.value[0].fare);
    }

    /**
     One request. If it succeeds, the ride row holds the quoted fare, the route, and a discount that (for
     a sane promo) lies between nothing and that fare, and a promo use is spent exactly when a promo was
     asked for. If it fails, the error says what refused it, and no use stays spent, unless giving it
     back failed as well.
     */
    method RequestRide(
      pid: Pid, id: RideId, rider: nat, allowed: bool, city: nat, t: Pricing.RideType, km: real, min: real, m: real,
      usePromo: bool, releaseWorks: bool, now: Time) returns (r: Result<Ride>, ghost config: Option<Pricing.FareConfig>)
      requires Unique(table) && promos.Valid()
      requires rides.stores.Valid() && pid !in rides.stores.procs && (promos as object) != rides.stores
      modifies rides.stores, promos
      ensures promos.Valid() && rides.stores.Valid() && old(rides.stores.history) <= rides.stores.history
      ensures pid !in rides.stores.procs
      ensures r.Ok? ==>
                && allowed && config.Some? && InForce(table, city, t, config.value)
                && Rides.Landed(rides.stores.db, id, r.value)
                && Rides.Fresh(r.value, rider, now, r.value.terms)
                && Locked(r.value.terms, config.value, km, min, m)
                && (!usePromo ==> r.value.terms.promoDiscount == 0.0)
                && (usePromo ==>
                      && promos.promo.Some? && Promos.Runs(promos.promo, now)
                      && old(promos.CountAt(now)) < promos.promo.value.maxUsesPerUser
                      && Pricing.DiscountFits(r.value.terms.estimatedFare, promos.promo.value.discountPercent,
                                              promos.promo.value.maxDiscount, r.value.terms.promoDiscount))
                && (usePromo && Sensible(promos.promo.value) && Pricing.Sane(config.value) ==>
                      0.0 <= r.value.terms.promoDiscount <= r.value.terms.estimatedFare)
      ensures r.Err? ==>
                Refused(allowed, city, t, usePromo, now, old(promos.CountAt(now)), rides.stores.db, id, r.error)
      ensures r.Ok? ==> promos.CountAt(now) == old(promos.CountAt(now)) + if usePromo then 1 else 0
      ensures r.Ok? ==> promos.RidesAt(now) == old(promos.RidesAt(now)) + if usePromo then 1 else 0
      ensures r.Err? && releaseWorks ==> promos.CountAt(now) == old(promos.CountAt(now))
      ensures r.Err? ==> promos.RidesAt(now) == old(promos.RidesAt(now))
      ensures old(promos.CountAt(now)) <= promos.CountAt(now) <= old(promos.CountAt(now)) + 1
    {
      config := None;
      if !allowed {
        return Err(Forbidden), None;
      }
      var locked;
      locked, config := LockPrice(city, t, km, min, m);
      if locked.Err? {
        return Err(locked.error), None;
      }
      var discount := 0.0;
      if usePromo {
        var redeemed := promos.Redeem(now);
        if redeemed.Err? {
          return Err(redeemed.error), config;
        }
        discount := Pricing.Discount(locked.value, redeemed.value.discountPercent, redeemed.value.maxDiscount);
      }
      var terms := Terms(locked.value, discount, Pricing.StoredKm(km), Pricing.StoredMin(min));
      TermsAreFair(config.value, km, min, m, terms);
      r := rides.CreateRide(pid, id, rider, now, terms);
      if usePromo {
        if r.Err? {
          promos.GiveBack(releaseWorks);
        } else {
          promos.Spend();
          DiscountIsFair(config.value, km, min, m, promos.promo.value, locked.value);
        }
      }
    }

    /** Why a request is refused: the guards, no fare for the ride type, the promo, or the insert. */
    predicate Refused(
      allowed: bool, city: nat, t: Pricing.RideType, usePromo: bool, now: Time, uses: int, db: Db, id: RideId, e: Error)
    {
      if !allowed then e == Forbidden
      else match e
           case NotFound =>
             || (forall c :: c in table ==> !InForce(table, city, t, c))
             || (usePromo && (promos.promo.None? || !promos.promo.value.isActive))
           case BadRequest =>
             && usePromo && promos.promo.Some? && promos.promo.value.isActive
             && (!Promos.Runs(promos.promo, now) || uses >= promos.promo.value.maxUsesPerUser)
           case Conflict => id in db.rows
           case _ => false
    }

    /**
     From request to completion, with anybody doing anything in between: while the fare row stays as it
     is, the rider pays at most the locked fare less the discount, plus what the stored route and two
     roundings explain; and without dynamic surge not less than that much below it either.
     */
    method RequestThenComplete(
      pid: Pid, id: RideId, rider: nat, city: nat, t: Pricing.RideType, km: real, min: real, m: real,
      c: Pricing.FareConfig, usePromo: bool, releaseWorks: bool, now: Time, later: Time)
      returns (requested: Result<Ride>, completed: Result<Ride>)
      requires Unique(table) && promos.Valid() && InForce(table, city, t, c) && Pricing.Sane(c) && min >= 0.0
      requires rides.stores.Valid() && pid !in rides.stores.procs && (promos as object) != rides.stores
      modifies rides.stores, promos
      ensures requested.Ok? && completed.Ok? ==>
                && completed.value.totalFare.Some?
                && PaysAsAgreed(c, requested.value.terms, completed.value.totalFare.value, m)
    {
      ghost var config;
      requested, config := RequestRide(pid, id, rider, true, city, t, km, min, m, usePromo, releaseWorks, now);
      completed := rides.CompleteRide(pid, id, Some(c), later);
      if requested.Ok? && completed.Ok? {
        OneRowInForce(table, city, t, c, config.value);
        AgreedPrice(c, completed.value, completed.value.totalFare.value, km, min, m);
      }
    }
  }

  /** The terms hold the fare that was quoted, and the route as the table stores it. */
  ghost predicate Locked(terms: Terms, c: Pricing.FareConfig, km: real, min: real, m: real) {
    Pricing.QuoteFits(c, km, min, m, terms.estimatedFare) && Pricing.RouteStored(km, min, terms.km, terms.min)
  }

  predicate PaysAsAgreed(c: Pricing.FareConfig, terms: Terms, total: real, m: real) {
    var agreed, slack := terms.estimatedFare - terms.promoDiscount, Pricing.Slack(c) + 0.5;
    && 0.0 <= total <= Pricing.Max(0.0, agreed + slack)
    && (m <= 1.0 ==> agreed - slack <= total)
  }

  lemma AgreedPrice(c: Pricing.FareConfig, ride: Ride, total: real, km: real, min: real, m: real)
    requires Pricing.Sane(c) && min >= 0.0 && Locked(ride.terms, c, km, min, m) && Rides.Charged(ride, c, total)
    ensures PaysAsAgreed(c, ride.terms, total, m)
  {
    var fare :| Pricing.StoredFareFits(c, ride.terms.km, ride.terms.min, fare)
                && total == if ride.terms.promoDiscount <= fare then fare - ride.terms.promoDiscount else 0.0;
    Pricing.FareFitsIff(c, ride.terms.km, ride.terms.min as real, fare);
    Pricing.QuoteFitsIff(c, km, min, m, ride.terms.estimatedFare);
    Pricing.RouteStoredIff(km, min, ride.terms.km, ride.terms.min);
    Pricing.PriceLockBound(c, km, min, m);
  }

  predicate Sensible(p: Promos.Promo) {
    0.0 <= p.discountPercent <= 100.0 && p.maxDiscount >= 0.0
  }

  lemma LockIsOnGrid(c: Pricing.FareConfig, km: real, min: real, m: real)
    requires Pricing.Sane(c)
    ensures Rounding.OnHalfGrid(Pricing.LockedFare(c, km, min, m)) && Pricing.LockedFare(c, km, min, m) >= 0.0
  {
    Pricing.FareIsSound(c, km, min, km, min);
    if m > 1.0 {
      Rounding.ToHalfNear(Pricing.CalculateFare(c, km, min) * m);
      Pricing.SurgeNeverLowers(Pricing.CalculateFare(c, km, min), m);
    }
  }

  /** The terms that quote, route and promo come to. */
  lemma TermsAreFair(c: Pricing.FareConfig, km: real, min: real, m: real, terms: Terms)
    requires Pricing.QuoteFits(c, km, min, m, terms.estimatedFare)
    requires terms.km == Pricing.StoredKm(km) && terms.min == Pricing.StoredMin(min)
    ensures Locked(terms, c, km, min, m)
  {
    Pricing.RouteStoredIff(km, min, terms.km, terms.min);
  }

  lemma DiscountIsFair(c: Pricing.FareConfig, km: real, min: real, m: real, p: Promos.Promo, fare: real)
    requires Pricing.QuoteFits(c, km, min, m, fare)
    ensures var discount := Pricing.Discount(fare, p.discountPercent, p.maxDiscount);
            && Pricing.DiscountFits(fare, p.discountPercent, p.maxDiscount, discount)
            && (Pricing.Sane(c) && Sensible(p) ==> 0.0 <= discount <= fare)
  {
    Pricing.DiscountFitsIff(fare, p.discountPercent, p.maxDiscount,
                            Pricing.Discount(fare, p.discountPercent, p.maxDiscount));
    if Pricing.Sane(c) && Sensible(p) {
      Pricing.QuoteFitsIff(c, km, min, m, fare);
      LockIsOnGrid(c, km, min, m);
      Pricing.DiscountWithinFare(fare, p.discountPercent, p.maxDiscount);
      Pricing.DiscountNotNegative(fare, p.discountPercent, p.maxDiscount);
    }
  }
}
