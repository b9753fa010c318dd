/** Redeeming and releasing a promo, and the request that does one or both around creating a ride. */
module Promos {
  import opened Common
  import PromoCounter

  type Time = int

  const WINDOW_SECONDS := 60 * 60 * 24 * 90

  datatype Promo = Promo(
    isActive: bool, discountPercent: real, maxDiscount: real, maxUsesPerUser: int,
    validFrom: Option<Time>, validUntil: Option<Time>)

  /** Why a promo cannot be redeemed now, leaving the use count aside. */
  function Refusal(promo: Option<Promo>, now: Time): Option<Error> {
    if promo.None? || !promo.value.isActive then Some(NotFound)
    else if promo.value.validFrom.Some? && now < promo.value.validFrom.value then Some(BadRequest)
    else if promo.value.validUntil.Some? && now > promo.value.validUntil.value then Some(BadRequest)
    else None
  }

  /** The promo exists and is switched on, and the time is within its dates, ends included. */
  predicate Runs(promo: Option<Promo>, now: Time) {
    && promo.Some? && promo.value.isActive
    && (promo.value.validFrom.Some? ==> promo.value.validFrom.value <= now)
    && (promo.value.validUntil.Some? ==> now <= promo.value.validUntil.value)
  }

  class PromosService {
    const promo: Option<Promo>          // the row the code leads to
    var uses: Option<int>               // the user's counter key in the store
    var expiresAt: Option<Time>
    ghost var history: seq<PromoCounter.Action>
    ghost var ledger: PromoCounter.State  // what the protocol says these actions lead to

    function Cap(): int {
      if promo.Some? then promo.value.maxUsesPerUser else 0
    }

    function Count(): int
      reads this
    {
      if uses.Some? then uses.value else 0
    }

    /** The key's lifetime has ended, though nobody has noticed yet. */
    predicate Lapsed(now: Time)
      reads this
    {
      uses.Some? && expiresAt.Some? && now >= expiresAt.value
    }

    /** The uses that count at a given time. */
    function CountAt(now: Time): int
      reads this
    {
      if Lapsed(now) then 0 else Count()
    }

    /** The rides of the key lifetime of a given time. */
    ghost function RidesAt(now: Time): nat
      reads this
    {
      if Lapsed(now) then 0 else ledger.rides
    }

    /** One request has been granted a use and has not created its ride yet. */
    ghost predicate Holding()
      reads this
    {
      && promo.Some? && Recorded() && Count() == ledger.counter && ledger.waiting == 0
      && ledger.live == PromoCounter.Tally(0, 1, 0) && ledger.earlier == PromoCounter.Tally(0, 0, 0)
    }

    ghost predicate Recorded()
      reads this
    {
      PromoCounter.Reaches(Cap(), history, ledger)
    }

    /** The key's value is the counter of the protocol, and no request is halfway. */
    ghost predicate Valid()
      reads this
    {
      Recorded() && Count() == ledger.counter && PromoCounter.Quiet(ledger)
    }

    constructor (promo: Option<Promo>)
      ensures Valid() && uses == None && this.promo == promo
    {
      this.promo, uses, expiresAt, history := promo, None, None, [];
      ledger := PromoCounter.Init();
    }

    ghost method Record(a: PromoCounter.Action)
      requires Recorded()
      modifies this`history, this`ledger
      ensures Recorded() && history == old(history) + [a]
      ensures ledger == PromoCounter.Next(Cap(), old(ledger), a)
    {
      PromoCounter.ReachesOn(Cap(), history, ledger, a);
      history := history + [a];
      ledger := PromoCounter.Next(Cap(), ledger, a);
    }

    /** INCR: the request is now over the limit, or has its use. */
    method Increment() returns (n: int)
      requires Valid()
      modifies this`uses, this`history, this`ledger
      ensures Recorded() && n == old(Count()) + 1 && uses == Some(n)
      ensures ledger == old(ledger).(
                counter := n,
                live := if n > Cap() then PromoCounter.Tally(1, 0, 0) else PromoCounter.Tally(0, 1, 0))
    {
      Record(PromoCounter.Request);
      assert ledger == old(ledger).(waiting := 1);
      n := Count() + 1;
      uses := Some(n);
      Record(PromoCounter.Incr);
    }

    /** The store drops the key when its time is up. */
    method Lapse(now: Time)
      requires Valid()
      modifies this
      ensures Valid() && Count() == old(CountAt(now)) && ledger.rides == old(RidesAt(now)) && !Lapsed(now)
      ensures !old(Lapsed(now)) ==> expiresAt == old(expiresAt) && uses == old(uses)
      ensures old(Lapsed(now)) ==> expiresAt == None
    {
      if Lapsed(now) {
        uses, expiresAt := None, None;
        Record(PromoCounter.Expire);
      }
    }

    /** Claim one use: increment first, then give it back if that was one too many. */
    method Redeem(now: Time) returns (r: Result<Promo>)
      requires Valid()
      modifies this
      ensures r.Ok? <==> Runs(promo, now) && old(CountAt(now)) < promo.value.maxUsesPerUser
      ensures r.Ok? ==> promo == Some(r.value)
      ensures r.Err? ==> r.error == if promo.None? || !promo.value.isActive then NotFound else BadRequest
      ensures CountAt(now) == old(CountAt(now)) + if r.Ok? then 1 else 0
      ensures Runs(promo, now) ==>
                && !Lapsed(now)
                && expiresAt == if old(CountAt(now)) == 0 then Some(now + 90 * 24 * 3600) else old(expiresAt)
      ensures RidesAt(now) == old(RidesAt(now))
      ensures r.Err? ==> Valid() && (!Runs(promo, now) ==> history == old(history) && uses == old(uses))
      ensures r.Ok? ==> Holding()
    {
      if Refusal(promo, now).Some? {
        return Err(Refusal(promo, now).value);
      }
      Lapse(now);
      var n := Increment();
      if n == 1 {
        expiresAt := Some(now + WINDOW_SECONDS);
      }
      if n > promo.value.maxUsesPerUser {
        uses := Some(n - 1);
        Record(PromoCounter.Decr(PromoCounter.Limited, true));
        return Err(BadRequest);
      }
      r := Ok(promo.value);
    }

    /** Give a use back; `works` is whether the store took the decrement, an error is swallowed. */
    method Release(works: bool)
      requires promo.Some? && Recorded() && Count() == ledger.counter
      requires ledger.live == PromoCounter.Tally(0, 0, 1) && ledger.waiting == 0
      requires ledger.earlier == PromoCounter.Tally(0, 0, 0)
      modifies this
      ensures Valid() && Count() == old(Count()) - if works then 1 else 0
      ensures expiresAt == old(expiresAt) && (old(uses).Some? ==> uses.Some?)
      ensures ledger.rides == old(ledger.rides)
      ensures ledger.lostGrants == old(ledger.lostGrants) + if works then 0 else 1
    {
      if works {
        uses := Some(Count() - 1);
        Record(PromoCounter.Decr(PromoCounter.Refunding, true));
      } else {
        Record(PromoCounter.Lose(PromoCounter.Refunding, true));
      }
    }

    /** The ride was created: the use is spent. */
    method Spend()
      requires Holding()
      modifies this`history, this`ledger
      ensures Valid() && ledger.rides == old(ledger.rides) + 1 && ledger.lostGrants == old(ledger.lostGrants)
    {
      Record(PromoCounter.Create(true));
    }

    /** The ride was not created: the use is given back, if the store takes the decrement. */
    method GiveBack(works: bool)
      requires Holding()
      modifies this
      ensures Valid() && Count() == old(Count()) - if works then 1 else 0
      ensures expiresAt == old(expiresAt) && (old(uses).Some? ==> uses.Some?)
      ensures ledger.rides == old(ledger.rides)
    {
      Record(PromoCounter.CreateFails(true));
      Release(works);
    }

    /**
     The promo part of a ride request: redeem, create, and on failure release. A use is spent exactly
     when a ride comes of it, unless giving it back failed too.
     */
    method RequestWithPromo(now: Time, created: bool, releaseWorks: bool) returns (r: Result<Promo>)
      requires Valid()
      modifies this
      ensures Valid()
      ensures r.Ok? <==> created && Runs(promo, now) && old(CountAt(now)) < promo.value.maxUsesPerUser
      ensures RidesAt(now) == old(RidesAt(now)) + if r.Ok? then 1 else 0
      ensures CountAt(now) == old(CountAt(now)) +
                if Runs(promo, now) && old(CountAt(now)) < promo.value.maxUsesPerUser && (created || !releaseWorks)
                then 1 else 0
      ensures Runs(promo, now) ==>
                && !Lapsed(now)
                && expiresAt == if old(CountAt(now)) == 0 then Some(now + 90 * 24 * 3600) else old(expiresAt)
    {
      var redeemed := Redeem(now);
      if redeemed.Err? {
        return Err(redeemed.error);
      }
      if !created {
        GiveBack(releaseWorks);
        return Err(BadRequest);
      }
      Spend();
      r := Ok(redeemed.value);
    }

    /**
     The 90 days do not run from the first use alone: once a released use has brought the counter back
     to zero, the next redeem within the window counts as a first use again and moves its end.
     */
    method WindowMoves(first: Time, second: Time)
      requires Valid() && uses == None && first < second < first + 90 * 24 * 3600
      requires Runs(promo, first) && Runs(promo, second) && promo.value.maxUsesPerUser > 0
      modifies this
      ensures expiresAt == Some(second + 90 * 24 * 3600)
    {
      var a := RequestWithPromo(first, false, true);
      assert expiresAt == Some(first + WINDOW_SECONDS) && CountAt(second) == 0;
      var b := Redeem(second);
    }

    /** A redeem after the window has ended starts over, however many uses there were. */
    method WindowEnds(now: Time) returns (r: Result<Promo>)
      requires Valid() && uses.Some? && expiresAt.Some? && expiresAt.value <= now
      requires Runs(promo, now) && promo.value.maxUsesPerUser > 0
      modifies this
      ensures r.Ok? && CountAt(now) == 1 && expiresAt == Some(now + 90 * 24 * 3600)
    {
      r := Redeem(now);
    }
  }
}
