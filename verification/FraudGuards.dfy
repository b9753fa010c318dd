/** The ride-request limits of one rider, over whole runs of requests and ride status changes. */
module FraudGuards {
  import opened RideStateMachine

  type Time = int  // milliseconds

  const HOUR := 60 * 60 * 1000

  datatype Limits = Limits(maxRidesPerHour: int, maxConcurrentActive: int)

  datatype Slot = Slot(createdAt: Time, status: Status)

  datatype State = State(rides: seq<Slot>, clock: Time)

  /** A request takes `wait` to arrive and its ride row is created `work` after the guards looked. */
  datatype Action =
    | Request(wait: nat, work: nat)
    | Change(ride: nat, to: Status)

  /** Rides created after `from` and no later than `to`. */
  function Between(rides: seq<Slot>, from: Time, to: Time): nat {
    if rides == [] then 0
    else Between(rides[..|rides| - 1], from, to) + if from < rides[|rides| - 1].createdAt <= to then 1 else 0
  }

  /** Rides created in the sixty minutes up to `t`. */
  function InHour(rides: seq<Slot>, t: Time): nat {
    Between(rides, t - HOUR, t)
  }

  /** What the velocity query counts. */
  function Since(rides: seq<Slot>, from: Time): nat {
    if rides == [] then 0
    else Since(rides[..|rides| - 1], from) + if from < rides[|rides| - 1].createdAt then 1 else 0
  }

  function Active(rides: seq<Slot>): nat {
    if rides == [] then 0
    else Active(rides[..|rides| - 1]) + if IsTerminal(rides[|rides| - 1].status) then 0 else 1
  }

  predicate GuardVelocity(l: Limits, rides: seq<Slot>, now: Time) {
    Since(rides, now - HOUR) < l.maxRidesPerHour
  }

  predicate GuardConcurrency(l: Limits, rides: seq<Slot>) {
    Active(rides) < l.maxConcurrentActive
  }

  function Next(l: Limits, s: State, a: Action): State {
    match a
    case Request(wait, work) =>
      var now := s.clock + wait;
      if GuardVelocity(l, s.rides, now) && GuardConcurrency(l, s.rides)
      then State(s.rides + [Slot(now + work, REQUESTED)], now + work)
      else s.(clock := now)
    case Change(i, to) =>
      if i < |s.rides| && AssertTransition(s.rides[i].status, to)
      then s.(rides := s.rides[i := s.rides[i].(status := to)]) else s
  }

  function Run(l: Limits, s: State, acts: seq<Action>): State {
    if acts == [] then s else Next(l, Run(l, s, acts[..|acts| - 1]), acts[|acts| - 1])
  }

  function AtLeastZero(n: int): nat {
    if n < 0 then 0 else n
  }

  ghost predicate Inv(l: Limits, s: State) {
    && (forall i :: 0 <= i < |s.rides| ==> s.rides[i].createdAt <= s.clock)
    && Active(s.rides) <= AtLeastZero(l.maxConcurrentActive)
    && forall t :: InHour(s.rides, t) <= AtLeastZero(l.maxRidesPerHour)
  }

  lemma {:induction false} BetweenAtMostSince(rides: seq<Slot>, from: Time, to: Time, since: Time)
    requires since <= from
    ensures Between(rides, from, to) <= Since(rides, since)
  {
    if rides != [] {
      BetweenAtMostSince(rides[..|rides| - 1], from, to, since);
    }
  }

  lemma {:induction false} ChangeKeepsTimes(rides: seq<Slot>, i: nat, to: Status, from: Time, until: Time)
    requires i < |rides|
    ensures Between(rides[i := rides[i].(status := to)], from, until) == Between(rides, from, until)
  {
    var n := |rides| - 1;
    var after := rides[i := rides[i].(status := to)];
    if i == n {
      assert after[..n] == rides[..n];
    } else {
      assert after[..n] == rides[..n][i := rides[..n][i].(status := to)];
      ChangeKeepsTimes(rides[..n], i, to, from, until);
    }
  }

  /** A status change never makes a finished ride active again. */
  lemma {:induction false} ChangeAddsNoActive(rides: seq<Slot>, i: nat, to: Status)
    requires i < |rides| && AssertTransition(rides[i].status, to)
    ensures Active(rides[i := rides[i].(status := to)]) <= Active(rides)
  {
    var n := |rides| - 1;
    var after := rides[i := rides[i].(status := to)];
    if i == n {
      assert after[..n] == rides[..n];
    } else {
      assert after[..n] == rides[..n][i := rides[..n][i].(status := to)];
      ChangeAddsNoActive(rides[..n], i, to);
    }
  }

  lemma {:induction false} SinceCounts(rides: seq<Slot>, from: Time)
    ensures Since(rides, from) == |set i | 0 <= i < |rides| && from < rides[i].createdAt|
  {
    if rides != [] {
      var n := |rides| - 1;
      SinceCounts(rides[..n], from);
      var before := set i | 0 <= i < n && from < rides[..n][i].createdAt;
      var all := set i | 0 <= i < |rides| && from < rides[i].createdAt;
      assert all == before + if from < rides[n].createdAt then {n} else {};
    }
  }

  lemma {:induction false} ActiveCounts(rides: seq<Slot>)
    ensures Active(rides) == |set i | 0 <= i < |rides| && rides[i].status !in {COMPLETED, CANCELLED}|
  {
    if rides != [] {
      var n := |rides| - 1;
      ActiveCounts(rides[..n]);
      var before := set i | 0 <= i < n && rides[..n][i].status !in {COMPLETED, CANCELLED};
      var all := set i | 0 <= i < |rides| && rides[i].status !in {COMPLETED, CANCELLED};
      assert all == before + if rides[n].status !in {COMPLETED, CANCELLED} then {n} else {};
    }
  }

  /**
   A request is accepted exactly if fewer rides than the hourly limit were requested in the hour before it, and
   fewer than the other limit are neither completed nor cancelled; it then adds one ride, requested when its row
   is created, and otherwise nothing.
   */
  lemma AcceptedIffBelowLimits(l: Limits, s: State, wait: nat, work: nat)
    ensures var now := s.clock + wait;
            var lately := set i | 0 <= i < |s.rides| && now - 60 * 60 * 1000 < s.rides[i].createdAt;
            var active := set i | 0 <= i < |s.rides| && s.rides[i].status !in {COMPLETED, CANCELLED};
            Next(l, s, Request(wait, work)) ==
              if |lately| < l.maxRidesPerHour && |active| < l.maxConcurrentActive
              then State(s.rides + [Slot(now + work, REQUESTED)], now + work) else State(s.rides, now)
  {
    SinceCounts(s.rides, s.clock + wait - HOUR);
    ActiveCounts(s.rides);
  }

  /** Finishing a ride makes room for another. */
  lemma {:induction false} FinishingMakesRoom(l: Limits, s: State, i: nat, to: Status)
    requires i < |s.rides| && AssertTransition(s.rides[i].status, to)
    requires s.rides[i].status !in {COMPLETED, CANCELLED} && to in {COMPLETED, CANCELLED}
    ensures Active(Next(l, s, Change(i, to)).rides) == Active(s.rides) - 1
  {
    var after := Next(l, s, Change(i, to)).rides;
    ActiveCounts(s.rides);
    ActiveCounts(after);
    var active := set j | 0 <= j < |s.rides| && s.rides[j].status !in {COMPLETED, CANCELLED};
    assert (set j | 0 <= j < |after| && after[j].status !in {COMPLETED, CANCELLED}) == active - {i};
  }

  lemma RequestKeepsInv(l: Limits, s: State, wait: nat, work: nat)
    requires Inv(l, s)
    ensures Inv(l, Next(l, s, Request(wait, work)))
  {
    var now := s.clock + wait;
    if GuardVelocity(l, s.rides, now) && GuardConcurrency(l, s.rides) {
      var slot := Slot(now + work, REQUESTED);
      var rides := s.rides + [slot];
      assert rides[..|s.rides|] == s.rides;
      forall t ensures InHour(rides, t) <= AtLeastZero(l.maxRidesPerHour) {
        assert InHour(s.rides, t) <= AtLeastZero(l.maxRidesPerHour);
        if slot.createdAt <= t {
          BetweenAtMostSince(s.rides, t - HOUR, t, now - HOUR);
        }
      }
    }
  }

  lemma ChangeKeepsInv(l: Limits, s: State, i: nat, to: Status)
    requires Inv(l, s)
    ensures Inv(l, Next(l, s, Change(i, to)))
  {
    if i < |s.rides| && AssertTransition(s.rides[i].status, to) {
      ChangeAddsNoActive(s.rides, i, to);
      var rides := s.rides[i := s.rides[i].(status := to)];
      forall t ensures InHour(rides, t) <= AtLeastZero(l.maxRidesPerHour) {
        assert InHour(s.rides, t) <= AtLeastZero(l.maxRidesPerHour);
        ChangeKeepsTimes(s.rides, i, to, t - HOUR, t);
      }
    }
  }

  lemma {:induction false} AlwaysInv(l: Limits, start: Time, acts: seq<Action>)
    ensures Inv(l, Run(l, State([], start), acts))
  {
    if acts != [] {
      var s := Run(l, State([], start), acts[..|acts| - 1]);
      AlwaysInv(l, start, acts[..|acts| - 1]);
      match acts[|acts| - 1]
      case Request(wait, work) => RequestKeepsInv(l, s, wait, work);
      case Change(i, to) => ChangeKeepsInv(l, s, i, to);
    }
  }

  /**
   A rider whose requests are handled one at a time never has more rides in any sixty minutes, nor more
   active rides at once, than the limits allow, however long the requests take and the rides go.
   */
  lemma LimitsHold(l: Limits, start: Time, acts: seq<Action>, t: Time)
    ensures var s := Run(l, State([], start), acts);
            && InHour(s.rides, t) <= AtLeastZero(l.maxRidesPerHour)
            && Active(s.rides) <= AtLeastZero(l.maxConcurrentActive)
  {
    AlwaysInv(l, start, acts);
  }
}
