/** Runs from the empty state into the situations that the exact conditions are about. */
module Scenarios {
  import opened Common
  import opened RideStateMachine
  import opened Dispatch
  import opened DispatchLog
  import opened DispatchClaim
  import opened DispatchRace

  /** A step that only moves its process on. */
  lemma Moves(s0: State, s: State, pid: Pid, p: Proc, next: Proc) returns (t: State)
    requires Leads(s0, s) && pid in s.procs && s.procs[pid] == p
    requires Resume(s, p, 0, 0.0) == Outcome(s.db, s.claims, s.offers, Some(next))
    ensures Leads(s0, t) && t == s.(procs := s.procs[pid := next])
  {
    LeadsOn(s0, s, Step(pid, 0, 0.0));
    t := Next(s, Step(pid, 0, 0.0));
  }

  /** A step that commits and moves its process on. */
  lemma Commits(s0: State, s: State, pid: Pid, id: RideId, patch: Patch, seen: Status, next: Proc) returns (t: State)
    requires Leads(s0, s) && pid in s.procs && s.procs[pid] == Seen(id, patch, seen) && Matches(s.db, id, seen)
    requires Dispatch.After(id, patch, 0) == Some(next)
    ensures Leads(s0, t)
    ensures t == s.(db := Write(s.db, id, Patched(s.db.rows[id], patch)), procs := s.procs[pid := next])
  {
    LeadsOn(s0, s, Step(pid, 0, 0.0));
    t := Next(s, Step(pid, 0, 0.0));
  }

  lemma Starts(s0: State, s: State, pid: Pid, p: Proc) returns (t: State)
    requires Leads(s0, s) && pid !in s.procs && EntryPoint(p)
    ensures Leads(s0, t) && t == s.(procs := s.procs[pid := p])
  {
    LeadsOn(s0, s, Launch(pid, p));
    t := Next(s, Launch(pid, p));
  }

  function Fresh(): Ride {
    NewRide(0, 0, Terms(0.0, 0.0, 0.0, 0))
  }

  /** A ride, its matching job waiting, and offers to two drivers. */
  lemma Offered() returns (s: State)
    ensures Leads(Init(), s) && s.claims == map[] && s.procs == map[0 := Waiting(0)]
    ensures s.offers == {(0, 1), (0, 2)} && s.db.rows == map[0 := Fresh()] && |s.db.log| == 1
  {
    LeadsSelf(Init());
    LeadsOn(Init(), Init(), Create(0, 0, 0, Terms(0.0, 0.0, 0.0, 0)));
    s := Next(Init(), Create(0, 0, 0, Terms(0.0, 0.0, 0.0, 0)));
    s := Starts(Init(), s, 0, Matching(0));
    s := Moves(Init(), s, 0, Matching(0), Waiting(0));
    LeadsOn(Init(), s, Offer(0, 1));
    s := Next(s, Offer(0, 1));
    LeadsOn(Init(), s, Offer(0, 2));
    s := Next(s, Offer(0, 2));
  }

  /** Then driver 1 sets the claim key. */
  lemma Contested() returns (s: State)
    ensures Leads(Init(), s) && s.claims == map[0 := 1] && s.procs == map[0 := Waiting(0), 1 := Claimed(0, 1)]
    ensures s.offers == {(0, 1), (0, 2)} && s.db.rows == map[0 := Fresh()] && |s.db.log| == 1
  {
    s := Offered();
    s := Starts(Init(), s, 1, Answering(0, 1));
    s := Moves(Init(), s, 1, Answering(0, 1), Claiming(0, 1));
    LeadsOn(Init(), s, Step(1, 0, 0.0));
    s := Next(s, Step(1, 0, 0.0));
  }

  /**
   The situation in which an expiry of the claim key is harmful does arise, without any key having
   expired before: so first accept wins can fail, in a run from the empty state with one expiry.
   */
  lemma FirstAcceptCanFail() returns (s: State, t: State)
    ensures Leads(Init(), s) && ClaimInv(s) && !Timely(s, Expire(0))
    ensures Leads(Next(s, Expire(0)), t) && Names(t.db, 0, 1) && Names(t.db, 0, 2)
  {
    s := Contested();
    var acts :| NoExpiry(acts) && Run(Init(), acts) == s;
    AlwaysInv(acts);
    AlwaysClaimInv(acts);
    assert 1 in s.procs && DispatchClaim.Holds(s.procs[1], 0, 1) && Viable(s.db, s.procs[1]);
    t := UntimelyExpiryAdmitsTwo(s, 1, 2, 0, 1, 2);
  }

  /** The matching job and the driver's request both finalize the match. */
  lemma TwoFinalizers() returns (s: State)
    ensures Leads(Init(), s) && s.db.rows == map[0 := Fresh()]
    ensures s.procs == map[0 := Finalizing(0, 1), 1 := Moving(0, Match(1))] && |s.db.log| == 1 && (0, 2) in s.offers
  {
    s := Contested();
    LeadsOn(Init(), s, Step(1, 0, 0.0));
    s := Next(s, Step(1, 0, 0.0));
    assert s.procs[1] == Finalizing(0, 1);
    s := Moves(Init(), s, 0, Waiting(0), Finalizing(0, 1));
    s := Moves(Init(), s, 1, Finalizing(0, 1), Moving(0, Match(1)));
  }

  /** The driver's request takes the ride to MATCHING. */
  lemma FirstMatched() returns (s: State)
    ensures Leads(Init(), s) && 0 in s.db.rows && s.db.rows[0].status == MATCHING
    ensures s.procs == map[0 := Finalizing(0, 1), 1 := Moving(0, Accept(1, 0))] && |s.db.log| == 2 && (0, 2) in s.offers
  {
    s := TwoFinalizers();
    s := Moves(Init(), s, 1, Moving(0, Match(1)), Seen(0, Match(1), REQUESTED));
    s := Commits(Init(), s, 1, 0, Match(1), REQUESTED, Moving(0, Accept(1, 0)));
  }

  /** The job finds it there. */
  lemma BothMatched() returns (s: State)
    ensures Leads(Init(), s) && 0 in s.db.rows && s.db.rows[0].status == MATCHING
    ensures s.procs == map[0 := Moving(0, Accept(1, 0)), 1 := Moving(0, Accept(1, 0))]
    ensures |s.db.log| == 2 && (0, 2) in s.offers
  {
    s := FirstMatched();
    s := Moves(Init(), s, 0, Finalizing(0, 1), Moving(0, Accept(1, 0)));
  }

  lemma OneFinalizerLate() returns (s: State)
    ensures Leads(Init(), s) && 0 in s.db.rows && s.db.rows[0].status == ACCEPTED && s.db.rows[0].driver == Some(1)
    ensures s.procs == map[0 := Moving(0, Accept(1, 0)), 1 := Releasing(0, 1)] && |s.db.log| == 3 && (0, 2) in s.offers
  {
    s := BothMatched();
    s := Moves(Init(), s, 1, Moving(0, Accept(1, 0)), Seen(0, Accept(1, 0), MATCHING));
    s := Commits(Init(), s, 1, 0, Accept(1, 0), MATCHING, Releasing(0, 1));
  }

  /** One call about to repeat ACCEPTED, and one about to move on from it. */
  lemma BothSawAccepted() returns (s: State)
    ensures Leads(Init(), s) && Matches(s.db, 0, ACCEPTED) && |s.db.log| == 3 && 0 in s.procs && 2 in s.procs
    ensures s.procs[0] == Seen(0, Accept(1, 0), ACCEPTED) && s.procs[2] == Seen(0, Arrive(0), ACCEPTED)
  {
    s := OneFinalizerLate();
    s := Moves(Init(), s, 0, Moving(0, Accept(1, 0)), Seen(0, Accept(1, 0), ACCEPTED));
    s := Starts(Init(), s, 2, Moving(0, Arrive(0)));
    s := Moves(Init(), s, 2, Moving(0, Arrive(0)), Seen(0, Arrive(0), ACCEPTED));
  }

  /** An offer that outlives the match and the claim key. */
  lemma LateOffer() returns (s: State)
    ensures Leads(Init(), s) && (0, 2) in s.offers && 0 !in s.claims && 3 !in s.procs
    ensures 0 in s.db.rows && s.db.rows[0].status == ACCEPTED && s.db.rows[0].driver == Some(1)
  {
    s := OneFinalizerLate();
    LeadsOn(Init(), s, Step(1, 0, 0.0));
    s := Next(s, Step(1, 0, 0.0));
  }

  /**
   Accepting it goes through: driver 2 sets the claim key, finalizes, and is done without an error, while
   the ride stays with driver 1.
   */
  lemma AcceptedForNothing() returns (s: State, t: State)
    ensures Leads(Init(), s) && t == Run(s, Answer(3, 0, 2)) && Leads(Init(), t)
    ensures t.db == s.db && 0 in t.db.rows && t.db.rows[0].driver == Some(1)
    ensures 0 !in s.claims && t.claims == s.claims[0 := 2] && 3 !in t.procs
  {
    s := LateOffer();
    t := LateAcceptChangesNothing(s, 3, 0, 2);
    LeadsAll(Init(), s, Answer(3, 0, 2));
  }
}
