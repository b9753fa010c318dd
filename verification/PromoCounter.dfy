/**
 The per-user promo counter under races: increments, over-limit rollbacks and compensating releases
 are separate atomic steps of any number of ride requests, and the key expires now and then.
 Requests at the same point behave alike, so the state counts how many there are at each point.
 */
module PromoCounter {

  /** Requests past their increment: over the limit, about to create the ride, about to give the use back. */
  datatype Tally = Tally(limited: nat, granted: nat, refunding: nat)

  /** Where a request stands after its increment. */
  datatype Point = Limited | Granted | Refunding

  function At(t: Tally, p: Point): nat {
    match p
    case Limited => t.limited
    case Granted => t.granted
    case Refunding => t.refunding
  }

  function Enter(t: Tally, p: Point): Tally {
    match p
    case Limited => t.(limited := t.limited + 1)
    case Granted => t.(granted := t.granted + 1)
    case Refunding => t.(refunding := t.refunding + 1)
  }

  function Leave(t: Tally, p: Point): Tally
    requires At(t, p) > 0
  {
    match p
    case Limited => t.(limited := t.limited - 1)
    case Granted => t.(granted := t.granted - 1)
    case Refunding => t.(refunding := t.refunding - 1)
  }

  /**
   The counter; the requests that incremented it in this lifetime of the key, and those that did so in
   an earlier one; and the ledger of this lifetime: rides created, decrements lost, and decrements
   that strayed in from earlier lifetimes.
   */
  datatype State = State(
    counter: int, waiting: nat, live: Tally, earlier: Tally,
    rides: nat, lostGrants: nat, lostRollbacks: nat, stray: nat)

  /** `live` tells whether the request incremented in the current lifetime. */
  datatype Action =
    | Request
    | Incr
    | Decr(from: Point, live: bool)   // roll back (Limited) or release (Refunding)
    | Create(live: bool)
    | CreateFails(live: bool)
    | Lose(from: Point, live: bool)   // a crash, or a decrement whose error is swallowed
    | Abandon                         // a crash before the increment
    | Expire                          // the 90-day window ends

  predicate Has(s: State, p: Point, live: bool) {
    At(if live then s.live else s.earlier, p) > 0
  }

  function Without(s: State, p: Point, live: bool): State
    requires Has(s, p, live)
  {
    if live then s.(live := Leave(s.live, p)) else s.(earlier := Leave(s.earlier, p))
  }

  function Next(max: int, s: State, a: Action): State {
    match a
    case Request => s.(waiting := s.waiting + 1)
    case Abandon => if s.waiting == 0 then s else s.(waiting := s.waiting - 1)
    case Incr =>
      if s.waiting == 0 then s
      else
        var uses := s.counter + 1;
        s.(counter := uses, waiting := s.waiting - 1,
           live := Enter(s.live, if uses > max then Limited else Granted))
    case Decr(from, live) =>
      if from == Granted || !Has(s, from, live) then s
      else
        var t := Without(s, from, live);
        t.(counter := s.counter - 1, stray := if live then s.stray else s.stray + 1)
    case Create(live) =>
      if !Has(s, Granted, live) then s
      else
        var t := Without(s, Granted, live);
        t.(rides := if live then s.rides + 1 else s.rides)
    case CreateFails(live) =>
      if !Has(s, Granted, live) then s
      else
        var t := Without(s, Granted, live);
        if live then t.(live := Enter(t.live, Refunding)) else t.(earlier := Enter(t.earlier, Refunding))
    case Lose(from, live) =>
      if !Has(s, from, live) then s
      else
        var t := Without(s, from, live);
        if !live then t
        else if from == Limited then t.(lostRollbacks := s.lostRollbacks + 1)
        else t.(lostGrants := s.lostGrants + 1)
    case Expire =>
      State(0, s.waiting, Tally(0, 0, 0),
            Tally(s.earlier.limited + s.live.limited, s.earlier.granted + s.live.granted,
                  s.earlier.refunding + s.live.refunding),
            0, 0, 0, 0)
  }

  function Init(): State {
    State(0, 0, Tally(0, 0, 0), Tally(0, 0, 0), 0, 0, 0, 0)
  }

  function Run(max: int, s: State, acts: seq<Action>): State {
    if acts == [] then s else Next(max, Run(max, s, acts[..|acts| - 1]), acts[|acts| - 1])
  }

  /** Uses handed out in this lifetime and not given back. */
  function NetGrants(s: State): nat {
    s.rides + s.lostGrants + s.live.granted + s.live.refunding
  }

  function PendingRollbacks(s: State): nat {
    s.live.limited + s.lostRollbacks
  }

  function AtLeastZero(n: int): nat {
    if n < 0 then 0 else n
  }

  predicate Quiet(s: State) {
    s.waiting == 0 && s.live == Tally(0, 0, 0) && s.earlier == Tally(0, 0, 0)
  }

  predicate Inv(max: int, s: State) {
    && s.counter == NetGrants(s) + PendingRollbacks(s) - s.stray
    && NetGrants(s) <= AtLeastZero(max + s.stray)
  }

  lemma NextKeepsInv(max: int, s: State, a: Action)
    requires Inv(max, s)
    ensures Inv(max, Next(max, s, a))
  {
  }

  lemma {:induction false} AlwaysInv(max: int, acts: seq<Action>)
    ensures Inv(max, Run(max, Init(), acts))
  {
    if acts != [] {
      AlwaysInv(max, acts[..|acts| - 1]);
      NextKeepsInv(max, Run(max, Init(), acts[..|acts| - 1]), acts[|acts| - 1]);
    }
  }

  /** In every interleaving the counter is net grants plus pending rollbacks, less what strayed in. */
  lemma CounterBalances(max: int, acts: seq<Action>)
    ensures var s := Run(max, Init(), acts);
            s.counter == NetGrants(s) + PendingRollbacks(s) - s.stray
  {
    AlwaysInv(max, acts);
  }

  /** When all requests are done, the counter shows the rides, plus decrements lost, less decrements strayed in. */
  lemma QuietBalance(max: int, acts: seq<Action>)
    requires Quiet(Run(max, Init(), acts))
    ensures var s := Run(max, Init(), acts);
            && s.counter == s.rides + s.lostGrants + s.lostRollbacks - s.stray
            && (s.counter >= s.rides <==> s.stray <= s.lostGrants + s.lostRollbacks)
  {
    AlwaysInv(max, acts);
  }

  lemma RunSnoc(max: int, s: State, acts: seq<Action>, a: Action)
    ensures Run(max, s, acts + [a]) == Next(max, Run(max, s, acts), a)
  {
    assert (acts + [a])[..|acts|] == acts;
  }

  // ----- what one lifetime of the key can come to

  predicate NoExpiry(acts: seq<Action>) {
    forall i :: 0 <= i < |acts| ==> !acts[i].Expire?
  }

  function Total(t: Tally): nat {
    t.limited + t.granted + t.refunding
  }

  /** Requests between their increment and their end: a decrement of theirs may still come. */
  function Outstanding(s: State): nat {
    Total(s.live) + Total(s.earlier)
  }

  lemma {:induction false} StraysAreOutstanding(max: int, s: State, acts: seq<Action>)
    requires NoExpiry(acts) && Inv(max, s)
    ensures var t := Run(max, s, acts);
            Inv(max, t) && t.stray + Total(t.earlier) <= s.stray + Total(s.earlier)
  {
    if acts != [] {
      var n := |acts| - 1;
      StraysAreOutstanding(max, s, acts[..n]);
      NextKeepsInv(max, Run(max, s, acts[..n]), acts[n]);
    }
  }

  /** `t` can follow `s` within one lifetime of the key. */
  ghost predicate Leads(max: int, s: State, t: State) {
    exists acts :: NoExpiry(acts) && Run(max, s, acts) == t
  }

  lemma LeadsSelf(max: int, s: State)
    ensures Leads(max, s, s)
  {
    assert NoExpiry([]) && Run(max, s, []) == s;
  }

  lemma LeadsOn(max: int, s: State, t: State, a: Action)
    requires Leads(max, s, t) && !a.Expire?
    ensures Leads(max, s, Next(max, t, a))
  {
    var acts :| NoExpiry(acts) && Run(max, s, acts) == t;
    RunSnoc(max, s, acts, a);
    assert NoExpiry(acts + [a]);
  }

  /** A lifetime in which so many decrements have strayed and so many rides were created, and nothing else. */
  function Plain(waiting: nat, earlier: Tally, rides: nat, stray: nat): State {
    State(rides - stray, waiting, Tally(0, 0, 0), earlier, rides, 0, 0, stray)
  }

  /** Every request left over from an earlier lifetime can still decrement. */
  lemma {:induction false} AllStray(max: int, s0: State, waiting: nat, earlier: Tally, stray: nat)
    requires Leads(max, s0, Plain(waiting, earlier, 0, stray))
    ensures Leads(max, s0, Plain(waiting, Tally(0, 0, 0), 0, stray + Total(earlier)))
    decreases Total(earlier)
  {
    var s := Plain(waiting, earlier, 0, stray);
    if earlier.granted > 0 {
      LeadsOn(max, s0, s, CreateFails(false));
      s := Next(max, s, CreateFails(false));
    }
    var p := if s.earlier.refunding > 0 then Refunding else Limited;
    if Has(s, p, false) {
      LeadsOn(max, s0, s, Decr(p, false));
      AllStray(max, s0, waiting, Leave(s.earlier, p), stray + 1);
    }
  }

  /** And then as many requests get a use and create their ride as the counter lets through. */
  lemma {:induction false} GoodRequests(max: int, s0: State, waiting: nat, n: nat, stray: nat)
    requires Leads(max, s0, Plain(waiting, Tally(0, 0, 0), 0, stray)) && n <= AtLeastZero(max + stray)
    ensures Leads(max, s0, Plain(waiting, Tally(0, 0, 0), n, stray))
  {
    if n > 0 {
      GoodRequests(max, s0, waiting, n - 1, stray);
      var s := Plain(waiting, Tally(0, 0, 0), n - 1, stray);
      LeadsOn(max, s0, s, Request);
      LeadsOn(max, s0, Next(max, s, Request), Incr);
      LeadsOn(max, s0, Next(max, Next(max, s, Request), Incr), Create(true));
    }
  }

  lemma LifetimeAtMost(max: int, s: State, s0: State, t: State)
    requires s0 == Next(max, s, Expire) && Leads(max, s0, t)
    ensures t.rides <= AtLeastZero(max + Outstanding(s))
  {
    var acts :| NoExpiry(acts) && Run(max, s0, acts) == t;
    StraysAreOutstanding(max, s0, acts);
  }

  /**
   Let the key expire in any state. The largest number of promo rides that the new lifetime can come to
   is the cap plus the requests that were past their increment at that moment.
   */
  lemma LifetimeMaximum(max: int, s: State)
    ensures forall t :: Leads(max, Next(max, s, Expire), t) ==> t.rides <= AtLeastZero(max + Outstanding(s))
    ensures exists t :: Leads(max, Next(max, s, Expire), t)
                && t.rides == AtLeastZero(max + Outstanding(s)) && t.stray == Outstanding(s)
  {
    var s0, most := Next(max, s, Expire), AtLeastZero(max + Outstanding(s));
    forall t | Leads(max, s0, t) ensures t.rides <= most {
      LifetimeAtMost(max, s, s0, t);
    }
    LeadsSelf(max, s0);
    AllStray(max, s0, s.waiting, s0.earlier, 0);
    GoodRequests(max, s0, s.waiting, most, Outstanding(s));
    var t := Plain(s.waiting, Tally(0, 0, 0), most, Outstanding(s));
    assert t.rides == most && t.stray == Outstanding(s);
  }

  /**
   Exactly when the cap survives an expiry of the key: if and only if no request is past its increment at
   that moment (or the cap is so far below zero that they do not matter).
   */
  lemma CapSafeIffNoneOutstanding(max: int, s: State)
    ensures Outstanding(s) == 0 || max + Outstanding(s) <= 0
       <==> forall t :: Leads(max, Next(max, s, Expire), t) ==> t.rides <= AtLeastZero(max)
  {
    LifetimeMaximum(max, s);
  }

  /** Before the key first expires the cap holds without condition. */
  lemma FirstLifetimeHoldsCap(max: int, t: State)
    requires Leads(max, Init(), t)
    ensures t.rides <= AtLeastZero(max)
  {
    var acts :| NoExpiry(acts) && Run(max, Init(), acts) == t;
    NothingStrays(max, Init(), acts, t);
  }

  lemma NothingStrays(max: int, s: State, acts: seq<Action>, t: State)
    requires NoExpiry(acts) && Run(max, s, acts) == t && Inv(max, s) && s.stray == Total(s.earlier) == 0
    ensures Inv(max, t) && t.stray == 0 && t.rides <= AtLeastZero(max)
  {
    StraysAreOutstanding(max, s, acts);
    WithoutStrays(max, t);
  }

  lemma WithoutStrays(max: int, t: State)
    requires Inv(max, t) && t.stray == 0
    ensures t.rides <= AtLeastZero(max)
  {
  }

  // ----- what the counter shows when all requests are done

  lemma WithoutStraysQuiet(max: int, t: State)
    requires Inv(max, t) && t.stray == 0 && Quiet(t)
    ensures t.counter >= t.rides
    ensures t.counter == t.rides <==> t.lostGrants == 0 && t.lostRollbacks == 0
  {
  }

  /**
   In a key lifetime that began with no request between its increment and its end: when all requests are
   done, the counter is at least the rides, and equal exactly when no decrement was lost.
   */
  lemma QuietCounter(max: int, s: State, t: State)
    requires Outstanding(s) == 0 && Leads(max, Next(max, s, Expire), t) && Quiet(t)
    ensures t.counter >= t.rides
    ensures t.counter == t.rides <==> t.lostGrants == 0 && t.lostRollbacks == 0
  {
    var s0 := Next(max, s, Expire);
    var acts :| NoExpiry(acts) && Run(max, s0, acts) == t;
    StraysAreOutstanding(max, s0, acts);
    WithoutStraysQuiet(max, t);
  }

  /** So it is before the key first expires. */
  lemma FirstLifetimeQuiet(max: int, t: State)
    requires Leads(max, Init(), t) && Quiet(t)
    ensures t.counter >= t.rides
    ensures t.counter == t.rides <==> t.lostGrants == 0 && t.lostRollbacks == 0
  {
    var acts :| NoExpiry(acts) && Run(max, Init(), acts) == t;
    NothingStrays(max, Init(), acts, t);
    WithoutStraysQuiet(max, t);
  }

  lemma {:induction false} AllAbandon(max: int, s0: State, waiting: nat, stray: nat)
    requires Leads(max, s0, Plain(waiting, Tally(0, 0, 0), 0, stray))
    ensures Leads(max, s0, Plain(0, Tally(0, 0, 0), 0, stray))
  {
    if waiting > 0 {
      LeadsOn(max, s0, Plain(waiting, Tally(0, 0, 0), 0, stray), Abandon);
      AllAbandon(max, s0, waiting - 1, stray);
    }
  }

  /**
   Exactly when the counter of the new lifetime can be trusted not to show too little: if and only if no
   request is past its increment when the key expires.
   */
  lemma QuietSafeIffNoneOutstanding(max: int, s: State)
    ensures Outstanding(s) == 0
       <==> forall t :: Leads(max, Next(max, s, Expire), t) && Quiet(t) ==> t.counter >= t.rides
  {
    var s0 := Next(max, s, Expire);
    if Outstanding(s) == 0 {
      forall t | Leads(max, s0, t) && Quiet(t) ensures t.counter >= t.rides {
        QuietCounter(max, s, t);
      }
    } else {
      LeadsSelf(max, s0);
      AllStray(max, s0, s.waiting, s0.earlier, 0);
      AllAbandon(max, s0, s.waiting, Outstanding(s));
      var t := Plain(0, Tally(0, 0, 0), 0, Outstanding(s));
      assert Leads(max, s0, t) && Quiet(t) && t.counter < t.rides;
    }
  }

  lemma {:induction false} RunConcat(max: int, s: State, a: seq<Action>, b: seq<Action>)
    ensures Run(max, s, a + b) == Run(max, Run(max, s, a), b)
  {
    if b == [] {
      assert a + b == a;
    } else {
      var n := |b| - 1;
      assert (a + b)[..|a| + n] == a + b[..n];
      RunConcat(max, s, a, b[..n]);
    }
  }

  lemma OneTooMany(max: int, s: State) returns (acts: seq<Action>)
    requires max >= 0 && Leads(max, Init(), s) && Outstanding(s) == 1
    ensures var t := Run(max, Init(), acts); t.stray == 1 && t.rides == max + 1
  {
    var before :| NoExpiry(before) && Run(max, Init(), before) == s;
    var s0 := Next(max, s, Expire);
    LifetimeMaximum(max, s);
    var t :| Leads(max, s0, t) && t.rides == max + 1 && t.stray == 1;
    var more :| NoExpiry(more) && Run(max, s0, more) == t;
    RunSnoc(max, Init(), before, Expire);
    RunConcat(max, Init(), before + [Expire], more);
    acts := before + [Expire] + more;
  }

  lemma OneInFlight(max: int) returns (s: State)
    ensures Leads(max, Init(), s) && Outstanding(s) == 1
  {
    LeadsSelf(max, Init());
    LeadsOn(max, Init(), Init(), Request);
    s := Next(max, Init(), Request);
    LeadsOn(max, Init(), s, Incr);
    s := Next(max, s, Incr);
  }

  /** One request caught by an expiry really costs one use: for every cap, some run creates one ride too many. */
  lemma CapIsTight(max: int)
    requires max >= 0
    ensures exists acts :: var s := Run(max, Init(), acts); s.stray == 1 && s.rides == max + 1
  {
    var s := OneInFlight(max);
    var acts := OneTooMany(max, s);
    assert Run(max, Init(), acts).stray == 1;
  }

  // ----- the protocol state behind a service

  /** A term to name when a run is to be looked into. */
  ghost predicate Look(n: nat) {
    true
  }

  /** These actions lead to this state; guarded by `Look`, so that only proofs that ask for it unfold the run. */
  ghost predicate Reaches(max: int, acts: seq<Action>, s: State) {
    forall n: nat :: Look(n) ==> s == Run(max, Init(), acts)
  }

  lemma ReachesOn(max: int, acts: seq<Action>, s: State, a: Action)
    requires Reaches(max, acts, s)
    ensures Reaches(max, acts + [a], Next(max, s, a))
  {
    assert Look(0);
    RunSnoc(max, Init(), acts, a);
  }
}
