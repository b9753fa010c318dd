/** Fares, quotes, discounts, and how far a locked price can be from the price at completion. */
module Pricing {
  import opened Common
  import opened Rounding
  import Sorting

  datatype RideType = CABX_SAVER | CABX | CABXL | COMFORT | AUTO | TWO_WHEELER

  datatype FareConfig = FareConfig(
    city: nat, rideType: RideType, isActive: bool,
    baseFare: real, perKmRate: real, perMinuteRate: real, minimumFare: real, surgeMultiplier: real)

  predicate Sane(c: FareConfig) {
    c.baseFare >= 0.0 && c.perKmRate >= 0.0 && c.perMinuteRate >= 0.0 && c.minimumFare >= 0.0
    && c.surgeMultiplier >= 0.0
  }

  function Max(x: real, y: real): real {
    if x < y then y else x
  }

  function Min(x: real, y: real): real {
    if x < y then x else y
  }

  function Raw(c: FareConfig, km: real, min: real): real {
    c.baseFare + c.perKmRate * km + c.perMinuteRate * min
  }

  /** The fare before it is rounded. */
  function Exact(c: FareConfig, km: real, min: real): real {
    Max(Raw(c, km, min), c.minimumFare) * c.surgeMultiplier
  }

  function CalculateFare(c: FareConfig, km: real, min: real): real {
    ToHalf(Exact(c, km, min))
  }

  function ApplySurge(fare: real, multiplier: real): real {
    ToHalf(fare * multiplier)
  }

  /** A figure rounded to half rupees, halves up: on the grid, and no further than 25 paise from what it stands for. */
  predicate Rounds(x: real, rounded: real) {
    OnHalfGrid(rounded) && rounded - 0.25 <= x < rounded + 0.25
  }

  lemma ToHalfRounds(x: real, h: real)
    ensures Rounds(x, h) <==> h == ToHalf(x)
  {
    ToHalfNear(x);
    RoundNear(x * 2.0);
    if Rounds(x, h) {
      var n := (h * 2.0).Floor;
      assert Round(x * 2.0) == n;
    }
  }

  /**
   What a fare row asks for a route: base fare, kilometres and minutes, or the minimum fare if that is
   more, times the surge of the row, rounded to half rupees.
   */
  predicate FareFits(c: FareConfig, km: real, min: real, fare: real) {
    var metered := c.baseFare + c.perKmRate * km + c.perMinuteRate * min;
    Rounds(c.surgeMultiplier * (if metered >= c.minimumFare then metered else c.minimumFare), fare)
  }

  /** The same on a route as the rides table keeps it. */
  predicate StoredFareFits(c: FareConfig, km: real, min: int, fare: real) {
    FareFits(c, km, min as real, fare)
  }

  /** The fare is the one figure that fits, for every row and every route. */
  lemma FareFitsIff(c: FareConfig, km: real, min: real, fare: real)
    ensures FareFits(c, km, min, fare) <==> fare == CalculateFare(c, km, min)
  {
    ToHalfRounds(Exact(c, km, min), fare);
  }

  /** A dynamic surge above one is put on a fare and the result rounded again. */
  predicate SurgeFits(fare: real, m: real, quoted: real) {
    if m > 1.0 then Rounds(fare * m, quoted) else quoted == fare
  }

  lemma SurgeFitsIff(fare: real, m: real, quoted: real)
    ensures SurgeFits(fare, m, quoted) <==> quoted == if m > 1.0 then ApplySurge(fare, m) else fare
  {
    ToHalfRounds(fare * m, quoted);
  }

  /** A quoted fare: the fare of the row, with the dynamic surge. */
  ghost predicate QuoteFits(c: FareConfig, km: real, min: real, m: real, quoted: real) {
    exists fare :: FareFits(c, km, min, fare) && SurgeFits(fare, m, quoted)
  }

  lemma QuoteFitsIff(c: FareConfig, km: real, min: real, m: real, quoted: real)
    ensures QuoteFits(c, km, min, m, quoted) <==> quoted == LockedFare(c, km, min, m)
  {
    forall fare ensures FareFits(c, km, min, fare) <==> fare == CalculateFare(c, km, min) {
      FareFitsIff(c, km, min, fare);
    }
    SurgeFitsIff(CalculateFare(c, km, min), m, quoted);
    assert FareFits(c, km, min, CalculateFare(c, km, min));
  }

  lemma RawMonotone(c: FareConfig, km: real, min: real, km': real, min': real)
    requires Sane(c) && km <= km' && min <= min'
    ensures Raw(c, km, min) <= Raw(c, km', min')
  {
    MulMonotone(c.perKmRate, km, km');
    MulMonotone(c.perMinuteRate, min, min');
  }

  /** The fare is what the row asks for, a multiple of fifty paise, not negative, and monotone. */
  lemma FareIsSound(c: FareConfig, km: real, min: real, km': real, min': real)
    requires Sane(c) && km <= km' && min <= min'
    ensures FareFits(c, km, min, CalculateFare(c, km, min)) && OnHalfGrid(CalculateFare(c, km, min))
    ensures 0.0 <= CalculateFare(c, km, min) <= CalculateFare(c, km', min')
  {
    FareFitsIff(c, km, min, CalculateFare(c, km, min));
    RawMonotone(c, km, min, km', min');
    var x, y := Max(Raw(c, km, min), c.minimumFare), Max(Raw(c, km', min'), c.minimumFare);
    MulMonotone(c.surgeMultiplier, x, y);
    MulMonotone(c.surgeMultiplier, 0.0, x);
    ToHalfNear(Exact(c, km, min));
    ToHalfMonotone(Exact(c, km, min), Exact(c, km', min'));
    ToHalfAboveGrid(0.0, Exact(c, km, min));
  }

  /** Dynamic surge never lowers a fare that is already on the grid. */
  lemma SurgeNeverLowers(fare: real, m: real)
    requires OnHalfGrid(fare) && fare >= 0.0 && m >= 1.0
    ensures ApplySurge(fare, m) >= fare
  {
    MulMonotone(fare, 1.0, m);
    ToHalfAboveGrid(fare, fare * m);
  }

  /**
   The dynamic surge is applied to a fare already rounded to within 25 paise, and rounded again:
   together that is at most (m + 1) / 4 rupees away from surging the exact fare.
   */
  lemma DoubleRounding(fare: real, exact: real, m: real)
    requires m >= 0.0 && -0.25 <= fare - exact <= 0.25
    ensures -(m + 1.0) <= 4.0 * (ApplySurge(fare, m) - exact * m) <= m + 1.0
  {
    var p, q := fare * m, exact * m;
    ToHalfNear(p);
    var d := 4.0 * (fare - exact);
    assert m * d == 4.0 * (p - q);
    assert -m <= m * d <= m by {
      MulMonotone(m, d, 1.0);
      MulMonotone(m, -1.0, d);
    }
  }

  // ----- discount

  function Discount(lockedFare: real, percent: real, maxDiscount: real): real {
    Min(ToHalf(lockedFare * percent / 100.0), maxDiscount)
  }

  /** Exactly when the discount stays within the locked fare; a percentage of at most 100 always does. */
  lemma DiscountWithinFare(lockedFare: real, percent: real, maxDiscount: real)
    requires OnHalfGrid(lockedFare) && lockedFare >= 0.0
    ensures Discount(lockedFare, percent, maxDiscount) <= lockedFare
       <==> maxDiscount <= lockedFare || lockedFare * (percent - 100.0) < 25.0
    ensures percent <= 100.0 ==> Discount(lockedFare, percent, maxDiscount) <= lockedFare
    ensures percent <= 100.0 ==> lockedFare - Discount(lockedFare, percent, maxDiscount) >= 0.0
  {
    var d := ToHalf(lockedFare * percent / 100.0);
    DiscountBelowIff(lockedFare, percent);
    if percent <= 100.0 {
      MulMonotone(lockedFare, percent - 100.0, 0.0);
      assert lockedFare * (percent - 100.0) <= 0.0;
    }
  }

  lemma DiscountBelowIff(lockedFare: real, percent: real)
    requires OnHalfGrid(lockedFare)
    ensures ToHalf(lockedFare * percent / 100.0) <= lockedFare <==> lockedFare * (percent - 100.0) < 25.0
  {
    var n := (lockedFare * 2.0).Floor;
    var x := lockedFare * percent / 100.0 * 2.0;
    assert lockedFare * (percent - 100.0) == lockedFare * percent - lockedFare * 100.0;
    assert x == lockedFare * percent / 50.0;
    assert Round(x) <= n <==> x + 0.5 < n as real + 1.0;
  }

  /** The percentage of the fare, rounded to half rupees, or the cap of the promo if that is less. */
  predicate DiscountFits(lockedFare: real, percent: real, maxDiscount: real, discount: real) {
    var exact := lockedFare * percent / 100.0;
    (discount <= maxDiscount && Rounds(exact, discount)) || (discount == maxDiscount && CapBites(exact, maxDiscount))
  }

  /** The rounded figure is more than the cap: it reaches the next half rupee above it. */
  predicate CapBites(exact: real, cap: real) {
    exact >= ((cap * 2.0).Floor + 1) as real / 2.0 - 0.25
  }

  lemma CapBitesIff(exact: real, cap: real)
    ensures CapBites(exact, cap) <==> ToHalf(exact) > cap
  {
    var n, k := (cap * 2.0).Floor, Round(exact * 2.0);
    assert k > n <==> exact * 2.0 + 0.5 >= (n + 1) as real;
    assert k > n <==> k as real > cap * 2.0;
  }

  lemma DiscountFitsIff(lockedFare: real, percent: real, maxDiscount: real, discount: real)
    ensures DiscountFits(lockedFare, percent, maxDiscount, discount)
       <==> discount == Discount(lockedFare, percent, maxDiscount)
  {
    var exact := lockedFare * percent / 100.0;
    ToHalfRounds(exact, discount);
    CapBitesIff(exact, maxDiscount);
  }

  lemma DiscountNotNegative(lockedFare: real, percent: real, maxDiscount: real)
    requires lockedFare >= 0.0 && percent >= 0.0 && maxDiscount >= 0.0
    ensures Discount(lockedFare, percent, maxDiscount) >= 0.0
  {
    MulMonotone(lockedFare, 0.0, percent);
    ToHalfAboveGrid(0.0, lockedFare * percent / 100.0);
  }

  // ----- the price lock

  /** What the rides table keeps of the route: two decimals of distance, whole minutes. */
  function StoredKm(km: real): real {
    ToCents(km)
  }

  function StoredMin(min: real): int {
    if Round(min) < 0 then 0 else Round(min)
  }

  /** Distance to the nearest hundredth of a kilometre, time to the nearest minute, halves up, and not below zero. */
  predicate RouteStored(km: real, min: real, storedKm: real, storedMin: int) {
    && storedKm * 100.0 == (storedKm * 100.0).Floor as real && storedKm - 0.005 <= km < storedKm + 0.005
    && storedMin >= 0 && min < storedMin as real + 0.5 && (storedMin > 0 ==> storedMin as real - 0.5 <= min)
  }

  lemma RouteStoredIff(km: real, min: real, storedKm: real, storedMin: int)
    ensures RouteStored(km, min, storedKm, storedMin) <==> storedKm == StoredKm(km) && storedMin == StoredMin(min)
  {
    RoundNear(km * 100.0);
    assert StoredKm(km) * 100.0 == Round(km * 100.0) as real;
    if RouteStored(km, min, storedKm, storedMin) {
      assert Round(km * 100.0) == (storedKm * 100.0).Floor;
    }
  }

  function LockedFare(c: FareConfig, km: real, min: real, m: real): real {
    if m > 1.0 then ApplySurge(CalculateFare(c, km, min), m) else CalculateFare(c, km, min)
  }

  function FareAtCompletion(c: FareConfig, km: real, min: real): real {
    CalculateFare(c, StoredKm(km), StoredMin(min) as real)
  }

  /** What storing the route can move the exact fare by. */
  function Slack(c: FareConfig): real {
    c.surgeMultiplier * (c.perKmRate * 0.005 + c.perMinuteRate * 0.5)
  }

  /** A weighted sum moves by no more than the weighted moves. */
  lemma WeightedMove(p: real, q: real, x: real, y: real, x': real, y': real, ex: real, ey: real)
    requires p >= 0.0 && q >= 0.0 && -ex <= x' - x <= ex && -ey <= y' - y <= ey
    ensures -(p * ex + q * ey) <= (p * x' + q * y') - (p * x + q * y) <= p * ex + q * ey
  {
    MulWithin(p, x' - x, ex);
    MulWithin(q, y' - y, ey);
    assert p * (x' - x) == p * x' - p * x && q * (y' - y) == q * y' - q * y;
  }

  lemma StoringMovesRaw(c: FareConfig, km: real, min: real)
    requires Sane(c) && min >= 0.0
    ensures var e := c.perKmRate * 0.005 + c.perMinuteRate * 0.5;
            -e <= Raw(c, StoredKm(km), StoredMin(min) as real) - Raw(c, km, min) <= e
  {
    RoundNear(km * 100.0);
    RoundNear(min);
    WeightedMove(c.perKmRate, c.perMinuteRate, km, min, StoredKm(km), StoredMin(min) as real, 0.005, 0.5);
  }

  lemma FlooredMove(x: real, y: real, floor: real, surge: real, e: real)
    requires surge >= 0.0 && -e <= y - x <= e
    ensures -(surge * e) <= Max(y, floor) * surge - Max(x, floor) * surge <= surge * e
  {
    var u, v := Max(x, floor), Max(y, floor);
    MulWithin(surge, v - u, e);
    assert surge * (v - u) == v * surge - u * surge;
  }

  lemma StoringMovesLittle(c: FareConfig, km: real, min: real)
    requires Sane(c) && min >= 0.0
    ensures -Slack(c) <= Exact(c, StoredKm(km), StoredMin(min) as real) - Exact(c, km, min) <= Slack(c)
  {
    StoringMovesRaw(c, km, min);
    FlooredMove(Raw(c, km, min), Raw(c, StoredKm(km), StoredMin(min) as real), c.minimumFare, c.surgeMultiplier,
                c.perKmRate * 0.005 + c.perMinuteRate * 0.5);
  }

  lemma FaresNear(c: FareConfig, km: real, min: real)
    requires Sane(c) && min >= 0.0
    ensures -(Slack(c) + 0.5) <= FareAtCompletion(c, km, min) - CalculateFare(c, km, min) <= Slack(c) + 0.5
  {
    var x, y := Exact(c, km, min), Exact(c, StoredKm(km), StoredMin(min) as real);
    StoringMovesLittle(c, km, min);
    ToHalfNear(x);
    ToHalfNear(y);
    assert -(Slack(c) + 0.5) <= ToHalf(y) - ToHalf(x) <= Slack(c) + 0.5;
  }

  /**
   A fare computed again is close to the one locked in: the same up to `slack` without dynamic surge; with
   it, no higher than that above the locked fare, and no lower than that below what surge and rounding explain.
   */
  predicate NearLock(locked: real, again: real, slack: real, m: real) {
    if m > 1.0 then again <= locked + slack && locked <= m * (again + slack) + 0.25
    else -slack <= again - locked <= slack
  }

  lemma SurgedNear(fare: real, again: real, slack: real, m: real)
    requires OnHalfGrid(fare) && fare >= 0.0 && -slack <= again - fare <= slack
    ensures NearLock(if m > 1.0 then ApplySurge(fare, m) else fare, again, slack, m)
  {
    if m > 1.0 {
      SurgeNeverLowers(fare, m);
      ToHalfNear(fare * m);
      MulMonotone(m, fare, again + slack);
    }
  }

  /**
   With the fare table unchanged, the fare recomputed at completion is close to the locked one: up to what the
   stored route and two roundings explain.
   */
  lemma PriceLockBound(c: FareConfig, km: real, min: real, m: real)
    requires Sane(c) && min >= 0.0
    ensures NearLock(LockedFare(c, km, min, m), FareAtCompletion(c, km, min), Slack(c) + 0.5, m)
  {
    FaresNear(c, km, min);
    FareIsSound(c, km, min, km, min);
    SurgedNear(CalculateFare(c, km, min), FareAtCompletion(c, km, min), Slack(c) + 0.5, m);
  }

  // ----- quotes

  datatype QuoteOption = QuoteOption(
    rideType: RideType, baseFare: real, fare: real, etaMinutes: int, surgeMultiplier: real)

  function EtaFactor(t: RideType): real {
    match t
    case CABX_SAVER => 0.9
    case CABX => 0.9
    case CABXL => 0.95
    case COMFORT => 0.95
    case AUTO => 1.1
    case TWO_WHEELER => 1.0
  }

  function EstimateEta(min: real, t: RideType): int {
    if Round(min * EtaFactor(t)) < 1 then 1 else Round(min * EtaFactor(t))
  }

  predicate Asked(c: FareConfig, city: nat, types: set<RideType>) {
    c.city == city && c.isActive && (types == {} || c.rideType in types)
  }

  /** The rows the query and the type filter leave, in table order. */
  function Matching(table: seq<FareConfig>, city: nat, types: set<RideType>): seq<FareConfig> {
    if table == [] then []
    else (if Asked(table[0], city, types) then [table[0]] else []) + Matching(table[1..], city, types)
  }

  function ByBaseFare(): FareConfig -> real {
    (c: FareConfig) => c.baseFare
  }

  function OptionFor(c: FareConfig, km: real, min: real): QuoteOption {
    QuoteOption(c.rideType, c.baseFare, CalculateFare(c, km, min), EstimateEta(min, c.rideType), c.surgeMultiplier)
  }

  /** The waiting time shown: whole minutes of the scaled trip time, halves up, but one at least. */
  predicate EtaFits(min: real, t: RideType, eta: int) {
    var scaled := min * (if t in {CABX_SAVER, CABX} then 0.9 else if t in {CABXL, COMFORT} then 0.95
                         else if t == AUTO then 1.1 else 1.0);
    eta >= 1 && scaled < eta as real + 0.5 && (eta > 1 ==> eta as real - 0.5 <= scaled)
  }

  lemma EtaFitsIff(min: real, t: RideType, eta: int)
    ensures EtaFits(min, t, eta) <==> eta == EstimateEta(min, t)
  {
  }

  /** The option the client sees for one fare row. */
  ghost predicate Prices(o: QuoteOption, c: FareConfig, km: real, min: real, m: real) {
    && o.rideType == c.rideType && o.baseFare == c.baseFare && EtaFits(min, c.rideType, o.etaMinutes)
    && QuoteFits(c, km, min, m, o.fare)
    && o.surgeMultiplier == if m > 1.0 then m else c.surgeMultiplier
  }

  function Quoted(c: FareConfig, km: real, min: real, m: real): QuoteOption {
    OptionFor(c, km, min).(
      fare := LockedFare(c, km, min, m),
      surgeMultiplier := if m > 1.0 then m else c.surgeMultiplier)
  }

  lemma QuotedPrices(c: FareConfig, km: real, min: real, m: real)
    ensures Prices(Quoted(c, km, min, m), c, km, min, m)
  {
    EtaFitsIff(min, c.rideType, EstimateEta(min, c.rideType));
    QuoteFitsIff(c, km, min, m, LockedFare(c, km, min, m));
  }

  lemma {:induction false} MatchingCounts(table: seq<FareConfig>, city: nat, types: set<RideType>, c: FareConfig)
    ensures multiset(Matching(table, city, types))[c] == if Asked(c, city, types) then multiset(table)[c] else 0
  {
    if table != [] {
      MatchingCounts(table[1..], city, types, c);
      assert table == [table[0]] + table[1..];
    }
  }

  /** The filter looks at each row by itself and keeps the order of the table. */
  lemma {:induction false} MatchingSplits(a: seq<FareConfig>, b: seq<FareConfig>, city: nat, types: set<RideType>)
    ensures Matching(a + b, city, types) == Matching(a, city, types) + Matching(b, city, types)
  {
    if a == [] {
      assert a + b == b;
    } else {
      MatchingSplits(a[1..], b, city, types);
      assert (a + b)[1..] == a[1..] + b;
      var first := if Asked(a[0], city, types) then [a[0]] else [];
      var x, y := Matching(a[1..], city, types), Matching(b, city, types);
      assert Matching(a + b, city, types) == first + (x + y) == (first + x) + y;
    }
  }

  /**
   A quote prices every matching row, cheapest base fare first (equal ones in table order), and each
   fare is what a ride requested now locks in.
   */
  method GetQuote(table: seq<FareConfig>, city: nat, types: set<RideType>, km: real, min: real, m: real)
    returns (r: Result<seq<QuoteOption>>, ghost rows: seq<FareConfig>)
    ensures r == Err(NotFound) <==>
              forall c :: c in table ==> !(c.city == city && c.isActive && (types == {} || c.rideType in types))
    ensures r.Err? ==> r.error == NotFound
    ensures forall c :: multiset(rows)[c] ==
              if c.city == city && c.isActive && (types == {} || c.rideType in types) then multiset(table)[c] else 0
    ensures forall k :: Sorting.WithKey(rows, ByBaseFare(), k)
                     == Sorting.WithKey(Matching(table, city, types), ByBaseFare(), k)
    ensures r.Ok? ==> |r.value| == |rows|
                      && forall i :: 0 <= i < |rows| ==> Prices(r.value[i], rows[i], km, min, m)
    ensures r.Ok? ==> forall i, j :: 0 <= i < j < |r.value| ==> r.value[i].baseFare <= r.value[j].baseFare
  {
    var configs := Matching(table, city, types);
    rows := SortedRows(table, city, types);
    if configs == [] {
      forall c | c in table ensures !Asked(c, city, types) {
        assert c in multiset(table) && multiset(rows)[c] == 0;
      }
      return Err(NotFound), rows;
    }
    assert rows[0] in multiset(rows);
    var options := Options(Sorting.Sort(configs, ByBaseFare()), km, min, m);
    forall i | 0 <= i < |rows| ensures Prices(options[i], rows[i], km, min, m) {
      QuotedPrices(rows[i], km, min, m);
    }
    r := Ok(options);
  }

  /** What sorting by base fare makes of the matching rows. */
  lemma SortedRows(table: seq<FareConfig>, city: nat, types: set<RideType>) returns (rows: seq<FareConfig>)
    ensures rows == Sorting.Sort(Matching(table, city, types), ByBaseFare())
    ensures |rows| == |Matching(table, city, types)|
    ensures forall c :: multiset(rows)[c] == if Asked(c, city, types) then multiset(table)[c] else 0
    ensures forall k :: Sorting.WithKey(rows, ByBaseFare(), k)
                     == Sorting.WithKey(Matching(table, city, types), ByBaseFare(), k)
    ensures forall i, j :: 0 <= i < j < |rows| ==> rows[i].baseFare <= rows[j].baseFare
  {
    var configs := Matching(table, city, types);
    rows := Sorting.Sort(configs, ByBaseFare());
    Sorting.SortPermutes(configs, ByBaseFare());
    Sorting.SortSorts(configs, ByBaseFare());
    forall c ensures multiset(rows)[c] == if Asked(c, city, types) then multiset(table)[c] else 0 {
      MatchingCounts(table, city, types, c);
    }
    forall k ensures Sorting.WithKey(rows, ByBaseFare(), k) == Sorting.WithKey(configs, ByBaseFare(), k) {
      Sorting.SortStable(configs, ByBaseFare(), k);
    }
    assert forall i, j :: 0 <= i < j < |rows| ==> ByBaseFare()(rows[i]) <= ByBaseFare()(rows[j]);
  }

  /** One option per row; a dynamic surge above one is then laid over all of them. */
  method Options(rows: seq<FareConfig>, km: real, min: real, m: real) returns (options: seq<QuoteOption>)
    ensures |options| == |rows| && forall i :: 0 <= i < |rows| ==> options[i] == Quoted(rows[i], km, min, m)
  {
    options := seq(|rows|, i requires 0 <= i < |rows| => OptionFor(rows[i], km, min));
    if m > 1.0 {
      for i := 0 to |options|
        invariant |options| == |rows|
        invariant forall j :: 0 <= j < i ==> options[j] == Quoted(rows[j], km, min, m)
        invariant forall j :: i <= j < |rows| ==> options[j] == OptionFor(rows[j], km, min)
      {
        options := options[i := options[i].(fare := ApplySurge(options[i].fare, m), surgeMultiplier := m)];
      }
    }
  }
}
