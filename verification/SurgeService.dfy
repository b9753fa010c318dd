/** Dynamic surge: a stepped, capped multiplier from demand and supply, cached per pickup cell. */
module Surge {
  import opened Common
  import opened Rounding

  type Time = int  // seconds

  datatype SurgeConfig = SurgeConfig(maxMultiplier: real, demandThreshold: real, multiplierStep: real)

  predicate Sane(c: SurgeConfig) {
    c.maxMultiplier >= 1.0 && c.multiplierStep > 0.0
  }

  /** An empty pool counts as one driver. */
  function Pool(drivers: nat): real {
    (if drivers < 1 then 1 else drivers) as real
  }

  /** Rides asked for per driver. */
  function Ratio(demand: nat, drivers: nat): real {
    demand as real / Pool(drivers)
  }

  function Steps(c: SurgeConfig, ratio: real): int
    requires c.multiplierStep > 0.0
  {
    Ceil((ratio - c.demandThreshold) / c.multiplierStep)
  }

  /** The multiplier before the cap. */
  function Uncapped(c: SurgeConfig, ratio: real): real
    requires c.multiplierStep > 0.0
  {
    if ratio > c.demandThreshold then 1.0 + Steps(c, ratio) as real * c.multiplierStep else 1.0
  }

  function Capped(c: SurgeConfig, ratio: real): real
    requires c.multiplierStep > 0.0
  {
    if ratio > c.demandThreshold && c.maxMultiplier <= Uncapped(c, ratio) then c.maxMultiplier
    else Uncapped(c, ratio)
  }

  function Multiplier(c: SurgeConfig, demand: nat, drivers: nat): real
    requires c.multiplierStep > 0.0
  {
    ToCents(Capped(c, Ratio(demand, drivers)))
  }

  lemma CeilNear(x: real)
    ensures x <= Ceil(x) as real < x + 1.0
  {
  }

  lemma DivMonotone(a: real, b: real, d: real)
    requires a <= b && d > 0.0
    ensures a / d <= b / d
  {
    assert (b - a) / d >= 0.0;
  }

  lemma MulStrict(a: real, x: real, y: real)
    requires a > 0.0 && x < y
    ensures a * x < a * y
  {
    assert a * (y - x) > 0.0;
  }

  lemma CeilAbove(step: real, over: real, q: real, n: real)
    requires step > 0.0 && over == step * q && q <= n
    ensures over <= step * n
  {
    MulMonotone(step, q, n);
  }

  lemma CeilBelow(step: real, over: real, q: real, n: real)
    requires step > 0.0 && over == step * q && n < q + 1.0
    ensures step * n < over + step
  {
    MulStrict(step, n, q + 1.0);
    assert step * (q + 1.0) == step * q + step;
  }

  lemma Quotient(over: real, step: real)
    requires step > 0.0
    ensures over == step * (over / step)
  {
  }

  lemma UncappedNear(c: SurgeConfig, ratio: real)
    requires Sane(c) && ratio > c.demandThreshold
    ensures 1.0 + (ratio - c.demandThreshold) <= Uncapped(c, ratio)
              < 1.0 + (ratio - c.demandThreshold) + c.multiplierStep
    ensures Uncapped(c, ratio) > 1.0
  {
    var step, over := c.multiplierStep, ratio - c.demandThreshold;
    var q := over / step;
    var n := Ceil(q) as real;
    CeilNear(q);
    Quotient(over, step);
    CeilAbove(step, over, q, n);
    CeilBelow(step, over, q, n);
    assert Uncapped(c, ratio) == 1.0 + n * step;
  }

  lemma UncappedMonotone(c: SurgeConfig, r: real, s: real)
    requires Sane(c) && r <= s
    ensures Uncapped(c, r) <= Uncapped(c, s)
  {
    if s > c.demandThreshold {
      UncappedNear(c, s);
      if r > c.demandThreshold {
        DivMonotone(r - c.demandThreshold, s - c.demandThreshold, c.multiplierStep);
        MulMonotone(c.multiplierStep, Steps(c, r) as real, Steps(c, s) as real);
      }
    }
  }

  lemma QuotientAtMost(a: real, x: real, d: real)
    requires d > 0.0 && a <= x * d
    ensures a / d <= x
  {
    var q := a / d;
    assert q * d == a;
    if q > x {
      MulStrict(d, x, q);
    }
  }

  lemma DivAntitone(a: real, d: real, d': real)
    requires a >= 0.0 && d >= d' > 0.0
    ensures a / d <= a / d'
  {
    var q := a / d';
    assert q * d' == a && q >= 0.0;
    MulMonotone(q, d', d);
    QuotientAtMost(a, q, d);
  }

  lemma RatioMonotone(demand: nat, demand': nat, drivers: nat, drivers': nat)
    requires demand <= demand' && drivers >= drivers'
    ensures Ratio(demand, drivers) <= Ratio(demand', drivers')
  {
    DivMonotone(demand as real, demand' as real, Pool(drivers));
    DivAntitone(demand' as real, Pool(drivers), Pool(drivers'));
  }

  /** More demand or fewer drivers never lower the multiplier, and it is never below one. */
  lemma MultiplierMonotone(c: SurgeConfig, demand: nat, demand': nat, drivers: nat, drivers': nat)
    requires Sane(c) && demand <= demand' && drivers >= drivers'
    ensures 1.0 <= Multiplier(c, demand, drivers) <= Multiplier(c, demand', drivers')
  {
    var r, s := Ratio(demand, drivers), Ratio(demand', drivers');
    RatioMonotone(demand, demand', drivers, drivers');
    UncappedMonotone(c, r, s);
    if r > c.demandThreshold {
      UncappedNear(c, r);
    }
    RoundMonotone(100.0, Capped(c, r) * 100.0);
    RoundMonotone(Capped(c, r) * 100.0, Capped(c, s) * 100.0);
  }

  lemma ToCentsNear(x: real)
    ensures -0.005 <= ToCents(x) - x <= 0.005
  {
    RoundNear(x * 100.0);
  }

  lemma ToCentsMonotone(x: real, y: real)
    requires x <= y
    ensures ToCents(x) <= ToCents(y)
  {
    RoundMonotone(x * 100.0, y * 100.0);
  }

  lemma RoundInt(n: int)
    ensures Round(n as real) == n
  {
  }

  lemma ToCentsExact(x: real, n: int)
    requires x * 100.0 == n as real
    ensures ToCents(x) == x
  {
    RoundInt(n);
    assert Round(x * 100.0) == n;
  }

  /** Whole cents. */
  predicate OnCents(x: real) {
    x * 100.0 == (x * 100.0).Floor as real
  }

  lemma ProductOnCents(step: real, n: int, k: int)
    requires step * 100.0 == k as real
    ensures n as real * step * 100.0 == (n * k) as real
  {
    assert n as real * (step * 100.0) == n as real * k as real;
  }

  lemma OnCentsSteps(step: real, n: int, u: real)
    requires OnCents(step) && u == 1.0 + n as real * step
    ensures ToCents(u) == u
  {
    var k := (step * 100.0).Floor;
    ProductOnCents(step, n, k);
    ToCentsExact(u, 100 + n * k);
  }

  /** The multiplier is one up to the threshold; how far it can be from the linear value beyond it. */
  lemma LessThanAStepOver(c: SurgeConfig, demand: nat, drivers: nat)
    requires Sane(c)
    ensures var ratio := demand as real / (if drivers == 0 then 1 else drivers) as real;
            var published := Multiplier(c, demand, drivers);
            if ratio <= c.demandThreshold then published == 1.0
            else
              var linear := 1.0 + (ratio - c.demandThreshold);
              && published < linear + c.multiplierStep + 0.005
              && (OnCents(c.multiplierStep) ==> published < linear + c.multiplierStep)
              && (Uncapped(c, ratio) < c.maxMultiplier ==> published >= linear - 0.005)
              && (OnCents(c.multiplierStep) && Uncapped(c, ratio) < c.maxMultiplier ==> published >= linear)
              && (linear >= c.maxMultiplier ==> published == ToCents(c.maxMultiplier))
  {
    var r := Ratio(demand, drivers);
    if r > c.demandThreshold {
      UncappedNear(c, r);
      ToCentsNear(Capped(c, r));
      ToCentsMonotone(Capped(c, r), Uncapped(c, r));
      if OnCents(c.multiplierStep) {
        OnCentsSteps(c.multiplierStep, Steps(c, r), Uncapped(c, r));
      }
    } else {
      ToCentsExact(1.0, 100);
    }
  }

  /** As many whole steps as it takes to cover what the ratio has over the threshold, and not one more. */
  predicate Covers(c: SurgeConfig, over: real, steps: nat) {
    over <= steps as real * c.multiplierStep < over + c.multiplierStep
  }

  /** To whole cents, halves up. */
  predicate InCents(x: real, cents: real) {
    OnCents(cents) && cents - 0.005 <= x < cents + 0.005
  }

  /** One up to the threshold, beyond it one step for every step begun, up to the cap, in whole cents. */
  ghost predicate PublishedFor(c: SurgeConfig, over: real, multiplier: real) {
    if over <= 0.0 then multiplier == 1.0
    else
      exists steps :: Covers(c, over, steps) &&
        var stepped := 1.0 + steps as real * c.multiplierStep;
        InCents(if stepped < c.maxMultiplier then stepped else c.maxMultiplier, multiplier)
  }

  /** The multiplier for so many requests and drivers; no driver counts as one. */
  ghost predicate Published(c: SurgeConfig, demand: nat, drivers: nat, multiplier: real) {
    PublishedFor(c, demand as real / (if drivers == 0 then 1 else drivers) as real - c.demandThreshold, multiplier)
  }

  lemma ToCentsInCents(x: real)
    ensures InCents(x, ToCents(x))
  {
    RoundNear(x * 100.0);
    assert ToCents(x) * 100.0 == Round(x * 100.0) as real;
  }

  lemma StepsCover(c: SurgeConfig, ratio: real)
    requires c.multiplierStep > 0.0 && ratio > c.demandThreshold
    ensures Steps(c, ratio) >= 0 && Covers(c, ratio - c.demandThreshold, Steps(c, ratio))
  {
    var step, over := c.multiplierStep, ratio - c.demandThreshold;
    var q := over / step;
    Quotient(over, step);
    CeilNear(q);
    CeilAbove(step, over, q, Ceil(q) as real);
    CeilBelow(step, over, q, Ceil(q) as real);
    assert q > 0.0;
  }

  lemma MultiplierIsPublished(c: SurgeConfig, ratio: real)
    requires c.multiplierStep > 0.0
    ensures PublishedFor(c, ratio - c.demandThreshold, ToCents(Capped(c, ratio)))
  {
    if ratio > c.demandThreshold {
      StepsCover(c, ratio);
      ToCentsInCents(Capped(c, ratio));
      assert Covers(c, ratio - c.demandThreshold, Steps(c, ratio));
    } else {
      ToCentsExact(1.0, 100);
    }
  }

  /** A demand at which the cap is reached. */
  function Flood(c: SurgeConfig): nat {
    var d := (c.demandThreshold + c.maxMultiplier + 1.0).Floor + 1;
    if d < 0 then 0 else d
  }

  lemma FloodReachesCap(c: SurgeConfig)
    requires Sane(c)
    ensures Multiplier(c, Flood(c), 1) == ToCents(c.maxMultiplier)
  {
    assert Ratio(Flood(c), 1) == Flood(c) as real;
    LessThanAStepOver(c, Flood(c), 1);
  }

  /** The published multiplier respects the cap in every situation exactly when the cap survives rounding. */
  lemma CapRespectedIff(c: SurgeConfig)
    requires Sane(c)
    ensures (forall demand: nat, drivers: nat :: Multiplier(c, demand, drivers) <= c.maxMultiplier)
       <==> ToCents(c.maxMultiplier) <= c.maxMultiplier
  {
    FloodReachesCap(c);
    forall demand: nat, drivers: nat | ToCents(c.maxMultiplier) <= c.maxMultiplier
      ensures Multiplier(c, demand, drivers) <= c.maxMultiplier
    {
      RoundMonotone(Capped(c, Ratio(demand, drivers)) * 100.0, c.maxMultiplier * 100.0);
    }
  }

  class SurgeService {
    const enabled: bool
    const config: SurgeConfig
    const cacheTtlSeconds: nat
    var cached: Option<real>
    var cachedUntil: Time

    predicate Hit(now: Time)
      reads this
    {
      cached.Some? && now < cachedUntil
    }

    constructor (enabled: bool, config: SurgeConfig, cacheTtlSeconds: nat)
      ensures this.enabled == enabled && this.config == config && this.cacheTtlSeconds == cacheTtlSeconds
      ensures cached == None
    {
      this.enabled, this.config, this.cacheTtlSeconds := enabled, config, cacheTtlSeconds;
      cached, cachedUntil := None, 0;
    }

    /** One when disabled; the cached value while it lives; otherwise measured anew and cached. */
    method GetMultiplier(now: Time, demand: nat, drivers: nat) returns (multiplier: real)
      requires config.multiplierStep > 0.0
      modifies this
      ensures !enabled ==> multiplier == 1.0 && cached == old(cached)
      ensures enabled && old(Hit(now)) ==>
                multiplier == old(cached.value) && cached == old(cached) && cachedUntil == old(cachedUntil)
      ensures enabled && !old(Hit(now)) ==>
                && Published(config, demand, drivers, multiplier)
                && cached == Some(multiplier) && cachedUntil == now + cacheTtlSeconds
    {
      if !enabled {
        return 1.0;
      }
      if cached.Some? && now < cachedUntil {
        return cached.value;
      }
      multiplier := Measure(demand, drivers);
      cached, cachedUntil := Some(multiplier), now + cacheTtlSeconds;
    }

    method Measure(demand: nat, drivers: nat) returns (multiplier: real)
      requires config.multiplierStep > 0.0
      ensures multiplier == Multiplier(config, demand, drivers) && Published(config, demand, drivers, multiplier)
    {
      var supply := if drivers < 1 then 1 else drivers;
      var ratio := demand as real / supply as real;
      multiplier := 1.0;
      if ratio > config.demandThreshold {
        var steps := Ceil((ratio - config.demandThreshold) / config.multiplierStep);
        var stepped := 1.0 + steps as real * config.multiplierStep;
        multiplier := if config.maxMultiplier <= stepped then config.maxMultiplier else stepped;
      }
      assert multiplier == Capped(config, Ratio(demand, drivers));
      MultiplierIsPublished(config, ratio);
      multiplier := Round(multiplier * 100.0) as real / 100.0;
    }

    /** Two quotes within one cache window agree, whatever demand and supply did in between. */
    method QuotesAgree(now: Time, later: Time, d1: nat, s1: nat, d2: nat, s2: nat) returns (m1: real, m2: real)
      requires config.multiplierStep > 0.0
      requires !Hit(now) && now <= later < now + cacheTtlSeconds
      modifies this
      ensures m1 == m2
    {
      m1 := GetMultiplier(now, d1, s1);
      m2 := GetMultiplier(later, d2, s2);
    }
  }
}
