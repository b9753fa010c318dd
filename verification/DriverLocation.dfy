/** Plausibility of location pings: a speed limit between neighbours, and what it means over a trail. */
module DriverLocation {
  import opened Common

  type Time = int  // milliseconds

  const CACHE_TTL_MS := 300 * 1000

  datatype Point = Point(lat: real, lon: real)

  datatype Ping = Ping(at: Point, timestamp: Time)

  ghost predicate Triangle(dist: (Point, Point) -> real) {
    forall a, b, c :: dist(a, c) <= dist(a, b) + dist(b, c)
  }

  /** At most 200 km/h since the previous position, plus fifty metres. */
  predicate Plausible(dist: (Point, Point) -> real, prev: Ping, next: Ping) {
    var timeDiff := (next.timestamp - prev.timestamp) as real / 1000.0;
    if timeDiff <= 0.0 then false
    else dist(prev.at, next.at) <= (200.0 / 3600.0) * timeDiff + 0.05
  }

  /** Later than the previous ping, and beyond fifty metres no farther than 200 km for each hour between them. */
  predicate WithinSpeed(dist: (Point, Point) -> real, prev: Ping, next: Ping) {
    var elapsed := next.timestamp - prev.timestamp;
    elapsed > 0 && (dist(prev.at, next.at) - 0.05) * 3600000.0 <= 200.0 * elapsed as real
  }

  lemma PlausibleIff(dist: (Point, Point) -> real, prev: Ping, next: Ping)
    ensures Plausible(dist, prev, next) <==> WithinSpeed(dist, prev, next)
  {
  }

  ghost predicate Trail(dist: (Point, Point) -> real, t: seq<Ping>) {
    forall i :: 0 < i < |t| ==> Plausible(dist, t[i - 1], t[i])
  }

  /** Over any stretch of accepted pings time runs forward and the speed limit still holds, end to end. */
  lemma {:induction false} SpeedLimitTelescopes(dist: (Point, Point) -> real, t: seq<Ping>, i: nat, j: nat)
    requires Triangle(dist) && Trail(dist, t) && i < j < |t|
    ensures t[i].timestamp < t[j].timestamp
    ensures dist(t[i].at, t[j].at)
         <= (200.0 / 3600.0) * ((t[j].timestamp - t[i].timestamp) as real / 1000.0) + 0.05 * (j - i) as real
    decreases j
  {
    assert Plausible(dist, t[j - 1], t[j]);
    if i < j - 1 {
      SpeedLimitTelescopes(dist, t, i, j - 1);
      assert dist(t[i].at, t[j].at) <= dist(t[i].at, t[j - 1].at) + dist(t[j - 1].at, t[j].at);
    }
  }

  class DriversService {
    const dist: (Point, Point) -> real
    var cached: Option<Ping>
    var cachedUntil: Time
    ghost var trail: seq<Ping>   // the pings since the cache was last empty or overwritten

    ghost predicate Valid()
      reads this
    {
      Trail(dist, trail) && (cached == if trail == [] then None else Some(trail[|trail| - 1]))
    }

    constructor (dist: (Point, Point) -> real)
      ensures Valid() && this.dist == dist && cached == None
    {
      this.dist, cached, cachedUntil, trail := dist, None, 0, [];
    }

    predicate Remembered(now: Time)
      reads this
    {
      cached.Some? && now < cachedUntil
    }

    predicate ValidateLocationJump(ping: Ping, now: Time)
      reads this
    {
      Remembered(now) ==> Plausible(dist, cached.value, ping)
    }

    /** A ping either extends the trail or, after the cache expired, starts a new one; or it is refused. */
    method UpdateLocation(ping: Ping, now: Time) returns (updated: bool)
      requires Valid()
      modifies this
      ensures Valid()
      ensures updated <==>
                (old(cached).Some? && now < old(cachedUntil) ==> WithinSpeed(dist, old(cached).value, ping))
      ensures trail == if !updated then old(trail)
                       else if old(cached).Some? && now < old(cachedUntil) then old(trail) + [ping] else [ping]
      ensures updated ==> cached == Some(ping) && cachedUntil == now + 5 * 60 * 1000
      ensures !updated ==> cached == old(cached) && cachedUntil == old(cachedUntil)
    {
      updated := ValidateLocationJump(ping, now);
      if Remembered(now) {
        PlausibleIff(dist, cached.value, ping);
      }
      if updated {
        trail := if Remembered(now) then trail + [ping] else [ping];
        cached, cachedUntil := Some(ping), now + CACHE_TTL_MS;
      }
    }

    /** Completing a ride puts the driver back at the pickup point: the trail starts over there. */
    method RestoreAt(pickup: Point, now: Time)
      requires Valid()
      modifies this
      ensures Valid() && trail == [Ping(pickup, now)] && cachedUntil == now + 5 * 60 * 1000
    {
      trail := [Ping(pickup, now)];
      cached, cachedUntil := Some(Ping(pickup, now)), now + CACHE_TTL_MS;
    }
  }
}
