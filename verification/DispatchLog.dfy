/** The event log of a ride is its history: what every interleaving keeps true of rows and log. */
module DispatchLog {
  import opened Common
  import opened RideStateMachine
  import opened Dispatch

  /** The statuses published for a ride, in commit order. */
  function Trace(log: seq<Event>, id: RideId): seq<Status> {
    if log == [] then []
    else
      var n := |log| - 1;
      Trace(log[..n], id) + if log[n].ride == id then [log[n].status] else []
  }

  /** The latest event of a ride. */
  function Last(log: seq<Event>, id: RideId): Option<Event> {
    if log == [] then None
    else
      var n := |log| - 1;
      if log[n].ride == id then Some(log[n]) else Last(log[..n], id)
  }

  lemma LogAppend(log: seq<Event>, e: Event, id: RideId)
    ensures Trace(log + [e], id) == Trace(log, id) + if e.ride == id then [e.status] else []
    ensures Last(log + [e], id) == if e.ride == id then Some(e) else Last(log, id)
  {
    assert (log + [e])[..|log|] == log;
  }

  /** Each milestone column is filled exactly when the ride passed the milestone. */
  predicate Milestones(r: Ride, t: seq<Status>) {
    && (r.driver.Some? <==> ACCEPTED in t)
    && (r.acceptedAt.Some? <==> ACCEPTED in t)
    && (r.arrivedAt.Some? <==> ARRIVED in t)
    && (r.startedAt.Some? <==> IN_PROGRESS in t)
    && (r.completedAt.Some? <==> COMPLETED in t)
    && (r.totalFare.Some? <==> COMPLETED in t)
    && (r.totalFare.Some? ==> r.totalFare.value >= 0.0)
    && (r.cancelledAt.Some? <==> CANCELLED in t)
    && (r.reason.Some? <==> CANCELLED in t)
    && (r.fee == 0 || (r.fee == 50 && CANCELLED in t))
  }

  predicate RowOk(id: RideId, r: Ride, log: seq<Event>) {
    var t := Trace(log, id);
    && LegalTrace(t)
    && t[|t| - 1] == r.status
    && Last(log, id) == Some(Snapshot(id, r))
    && Milestones(r, t)
  }

  ghost predicate DbOk(db: Db) {
    && (forall id :: id in db.rows ==> RowOk(id, db.rows[id], db.log))
    && (forall id :: id !in db.rows ==> Trace(db.log, id) == [] && Last(db.log, id) == None)
  }

  /** What a patch in flight promises about itself and the row it is meant for. */
  predicate PatchOk(db: Db, id: RideId, p: Patch) {
    match p
    case Complete(fare, _) => fare >= 0.0
    case Cancel(_, fee, _) => fee == 0 || fee == 50
    case Rate(_, _) => id in db.rows && db.rows[id].status == COMPLETED
    case Accept(_, _) => id in db.rows && db.rows[id].status != REQUESTED
    case _ => true
  }

  predicate ProcOk(db: Db, p: Proc) {
    match p
    case Moving(id, patch) => PatchOk(db, id, patch)
    case Seen(id, patch, seen) =>
      && PatchOk(db, id, patch)
      && AssertTransition(seen, Target(patch))
      && id in db.rows
      && (seen == db.rows[id].status || Rank(seen) < Rank(db.rows[id].status))
    case Releasing(id, d) => id in db.rows && !Open(db.rows[id].status)
    case _ => true
  }

  ghost predicate Inv(s: State) {
    && DbOk(s.db)
    && ProcsOk(s)
  }

  /** A row only ever moves forward. */
  predicate Forward(before: Db, after: Db) {
    && (forall id :: id in before.rows ==> id in after.rows)
    && forall id :: id in before.rows ==>
         AssertTransition(before.rows[id].status, after.rows[id].status)
  }

  ghost predicate ProcsOk(s: State) {
    forall pid :: pid in s.procs ==> ProcOk(s.db, s.procs[pid])
  }

  /** A conditional update that goes through is legal from the status the row has at that moment. */
  lemma CommitsAreLegal(s: State, a: Action)
    requires ProcsOk(s)
    ensures var c := ChangeOf(s, a);
            c.Updated? ==>
              && c.id in s.db.rows && c.seen == s.db.rows[c.id].status
              && AssertTransition(c.seen, Target(c.patch)) && PatchOk(s.db, c.id, c.patch)
  {
    if a.Step? && a.pid in s.procs {
      assert ProcOk(s.db, s.procs[a.pid]);
    }
  }

  lemma StepForward(s: State, a: Action)
    requires ProcsOk(s)
    ensures Forward(s.db, Next(s, a).db)
  {
    OneTransactionPerChange(s, a);
    CommitsAreLegal(s, a);
  }

  lemma ProcOkForward(before: Db, after: Db, p: Proc)
    requires Forward(before, after) && ProcOk(before, p)
    ensures ProcOk(after, p)
  {
  }

  lemma InsertKeepsRow(db: Db, id: RideId, rider: nat, at: Time, terms: Terms)
    requires Trace(db.log, id) == []
    ensures var r := NewRide(rider, at, terms); RowOk(id, r, db.log + [Snapshot(id, r)])
  {
    LogAppend(db.log, Snapshot(id, NewRide(rider, at, terms)), id);
  }

  lemma InsertKeepsDb(db: Db, id: RideId, r: Ride)
    requires DbOk(db) && id !in db.rows
    requires exists rider, at, terms :: r == NewRide(rider, at, terms)
    ensures DbOk(Write(db, id, r))
  {
    var db' := Write(db, id, r);
    forall k | k in db'.rows ensures RowOk(k, db'.rows[k], db'.log) {
      if k == id {
        InsertKeepsRow(db, id, r.rider, r.createdAt, r.terms);
      } else {
        OtherRowKept(db.log, db'.log[|db.log|], k, db.rows[k]);
      }
    }
    forall k | k !in db'.rows ensures Trace(db'.log, k) == [] && Last(db'.log, k) == None {
      LogAppend(db.log, db'.log[|db.log|], k);
    }
  }

  lemma UpdateKeepsMilestones(r: Ride, p: Patch, t: seq<Status>)
    requires |t| > 0 && t[|t| - 1] == r.status && Milestones(r, t)
    requires p.Complete? ==> p.totalFare >= 0.0
    requires p.Cancel? ==> p.fee == 0 || p.fee == 50
    requires p.Rate? ==> r.status == COMPLETED
    ensures Milestones(Patched(r, p), t + [Target(p)])
  {
    var u := t + [Target(p)];
    forall s: Status ensures s in u <==> s in t || s == Target(p) {
    }
    match p
    case Match(_) =>
    case Accept(_, _) =>
    case Arrive(_) =>
    case Start(_) =>
    case Complete(_, _) =>
    case Rate(_, _) => assert COMPLETED in t;
    case Cancel(_, _, _) =>
  }

  lemma UpdateKeepsRow(db: Db, id: RideId, p: Patch)
    requires id in db.rows && RowOk(id, db.rows[id], db.log) && PatchOk(db, id, p)
    requires AssertTransition(db.rows[id].status, Target(p))
    ensures var r := Patched(db.rows[id], p); RowOk(id, r, db.log + [Snapshot(id, r)])
  {
    var r, t := Patched(db.rows[id], p), Trace(db.log, id);
    LogAppend(db.log, Snapshot(id, r), id);
    LegalAppend(t, Target(p));
    UpdateKeepsMilestones(db.rows[id], p, t);
  }

  lemma OtherRowKept(log: seq<Event>, e: Event, id: RideId, r: Ride)
    requires RowOk(id, r, log) && e.ride != id
    ensures RowOk(id, r, log + [e])
  {
    LogAppend(log, e, id);
  }

  lemma UpdateKeepsDb(db: Db, id: RideId, p: Patch)
    requires DbOk(db) && id in db.rows && PatchOk(db, id, p)
    requires AssertTransition(db.rows[id].status, Target(p))
    ensures DbOk(Write(db, id, Patched(db.rows[id], p)))
  {
    var db' := Write(db, id, Patched(db.rows[id], p));
    forall k | k in db'.rows ensures RowOk(k, db'.rows[k], db'.log) {
      if k == id {
        UpdateKeepsRow(db, id, p);
      } else {
        OtherRowKept(db.log, db'.log[|db.log|], k, db.rows[k]);
      }
    }
    forall k | k !in db'.rows ensures Trace(db'.log, k) == [] && Last(db'.log, k) == None {
      LogAppend(db.log, db'.log[|db.log|], k);
    }
  }

  /** What a process turns into keeps its promises. */
  lemma ResumeOk(s: State, p: Proc, now: Time, fare: real)
    requires ProcOk(s.db, p)
    ensures var o := Resume(s, p, now, fare); o.next.Some? ==> ProcOk(o.db, o.next.value)
  {
  }

  lemma NextKeepsDb(s: State, a: Action)
    requires DbOk(s.db) && ProcsOk(s)
    ensures DbOk(Next(s, a).db)
  {
    OneTransactionPerChange(s, a);
    CommitsAreLegal(s, a);
    match ChangeOf(s, a) {
      case Nothing =>
      case Inserted(id, r) => InsertKeepsDb(s.db, id, r);
      case Updated(id, p, seen) => UpdateKeepsDb(s.db, id, p);
    }
  }

  lemma NextKeepsProcs(s: State, a: Action)
    requires ProcsOk(s)
    ensures ProcsOk(Next(s, a))
  {
    var s' := Next(s, a);
    StepForward(s, a);
    forall pid | pid in s'.procs ensures ProcOk(s'.db, s'.procs[pid]) {
      if a.Step? && pid == a.pid {
        ResumeOk(s, s.procs[pid], a.now, a.fare);
      } else if pid in s.procs && s.procs[pid] == s'.procs[pid] {
        ProcOkForward(s.db, s'.db, s.procs[pid]);
      }
    }
  }

  lemma NextKeepsInv(s: State, a: Action)
    requires Inv(s)
    ensures Inv(Next(s, a))
  {
    NextKeepsDb(s, a);
    NextKeepsProcs(s, a);
  }

  /** Rows, log and processes agree after every interleaving whatsoever. */
  lemma {:induction false} AlwaysInv(acts: seq<Action>)
    ensures Inv(Run(Init(), acts))
  {
    if acts != [] {
      AlwaysInv(acts[..|acts| - 1]);
      NextKeepsInv(Run(Init(), acts[..|acts| - 1]), acts[|acts| - 1]);
    }
  }

  /** The event log refines the state machine, and the latest event shows every published column of the row. */
  lemma LogRefinesStateMachine(acts: seq<Action>, id: RideId)
    ensures var db := Run(Init(), acts).db;
            var t := Trace(db.log, id);
            if id in db.rows
            then LegalTrace(t) && t[|t| - 1] == db.rows[id].status
                 && Last(db.log, id).Some? && Shows(Last(db.log, id).value, id, db.rows[id])
                 && Changes(t) <= 5
            else t == []
  {
    AlwaysInv(acts);
    var db := Run(Init(), acts).db;
    if id in db.rows {
      AtMostFiveChanges(Trace(db.log, id));
    }
  }

  /** The filled columns of a ride are the ones its status calls for. */
  predicate Filled(r: Ride) {
    && (Open(r.status) ==> r.driver == None && r.acceptedAt == None)
    && (Passed(ACCEPTED, r.status) ==> r.driver.Some? && r.acceptedAt.Some?)
    && (Passed(ARRIVED, r.status) ==> r.arrivedAt.Some?)
    && (Passed(IN_PROGRESS, r.status) ==> r.startedAt.Some?)
    && (r.status == COMPLETED <==> r.completedAt.Some?)
    && (r.status == COMPLETED <==> r.totalFare.Some?)
    && (r.totalFare.Some? ==> r.totalFare.value >= 0.0)
    && (r.status == CANCELLED <==> r.reason.Some?)
    && (r.fee == 0 || (r.fee == 50 && r.status == CANCELLED))
  }

  lemma VisitedIffPassed(t: seq<Status>, s: Status)
    requires LegalTrace(t)
    ensures s in t ==> s == t[|t| - 1] || Rank(s) < Rank(t[|t| - 1])
    ensures Passed(s, t[|t| - 1]) ==> s in t
  {
    if s in t {
      var i :| 0 <= i < |t| && t[i] == s;
      TraceAscends(t, i, |t| - 1);
    }
    if Passed(s, t[|t| - 1]) {
      NothingSkipped(t, s);
    }
  }

  lemma RowFilled(id: RideId, r: Ride, log: seq<Event>)
    requires RowOk(id, r, log)
    ensures Filled(r)
  {
    var t := Trace(log, id);
    VisitedIffPassed(t, ACCEPTED);
    VisitedIffPassed(t, ARRIVED);
    VisitedIffPassed(t, IN_PROGRESS);
    VisitedIffPassed(t, COMPLETED);
    VisitedIffPassed(t, CANCELLED);
  }

  /** In every reachable state. */
  lemma StatusFixesMilestones(acts: seq<Action>, id: RideId)
    requires id in Run(Init(), acts).db.rows
    ensures Filled(Run(Init(), acts).db.rows[id])
  {
    AlwaysInv(acts);
    var db := Run(Init(), acts).db;
    RowFilled(id, db.rows[id], db.log);
  }

  /** A ride never leaves the table, and its status stays or ranks higher. */
  predicate Rises(before: Db, after: Db) {
    forall id :: id in before.rows ==>
      id in after.rows
      && (before.rows[id].status == after.rows[id].status
          || Rank(before.rows[id].status) < Rank(after.rows[id].status))
  }

  lemma NextRises(s: State, a: Action)
    requires ProcsOk(s)
    ensures Rises(s.db, Next(s, a).db)
  {
    StepForward(s, a);
  }

  lemma {:induction false} RunKeepsProcs(s: State, acts: seq<Action>)
    requires ProcsOk(s)
    ensures ProcsOk(Run(s, acts))
  {
    if acts != [] {
      RunKeepsProcs(s, acts[..|acts| - 1]);
      NextKeepsProcs(Run(s, acts[..|acts| - 1]), acts[|acts| - 1]);
    }
  }

  lemma {:induction false} RunRises(s: State, acts: seq<Action>)
    requires ProcsOk(s)
    ensures Rises(s.db, Run(s, acts).db)
  {
    if acts != [] {
      RunRises(s, acts[..|acts| - 1]);
      RunKeepsProcs(s, acts[..|acts| - 1]);
      NextRises(Run(s, acts[..|acts| - 1]), acts[|acts| - 1]);
    }
  }

  lemma LosesConflict(s: State, loser: Pid, now: Time, fare: real)
    requires loser in s.procs && s.procs[loser].Seen?
    requires !Matches(s.db, s.procs[loser].id, s.procs[loser].seen)
    ensures ChangeOf(s, Step(loser, now, fare)) == Nothing
    ensures Next(s, Step(loser, now, fare)) == s.(procs := s.procs - {loser})
  {
  }

  /** A committed change of status moves the row up for good. */
  lemma WinMovesRowOn(s: State, winner: Pid, now: Time, fare: real)
    requires ProcsOk(s) && winner in s.procs && s.procs[winner].Seen?
    requires var w := s.procs[winner]; Matches(s.db, w.id, w.seen) && Target(w.patch) != w.seen
    ensures var w := s.procs[winner];
            var s' := Next(s, Step(winner, now, fare));
            w.id in s'.db.rows && Rank(w.seen) < Rank(s'.db.rows[w.id].status)
  {
    OneTransactionPerChange(s, Step(winner, now, fare));
    CommitsAreLegal(s, Step(winner, now, fare));
  }

  lemma PassedStatusNeverMatches(s: State, id: RideId, seen: Status, acts: seq<Action>)
    requires ProcsOk(s) && id in s.db.rows && Rank(seen) < Rank(s.db.rows[id].status)
    ensures !Matches(Run(s, acts).db, id, seen)
  {
    RunRises(s, acts);
  }

  /**
   Of all calls that observed the same status and want another one, one commits: once a write has
   moved the ride off the status it saw, the conditional update of every other process that saw
   that status fails in every later state, whatever ran in between.
   */
  lemma OneWinnerPerObservation(
    s: State, winner: Pid, now: Time, fare: real, acts: seq<Action>, later: State, loser: Pid, now': Time, fare': real)
    requires Inv(s) && winner in s.procs && s.procs[winner].Seen?
    requires var w := s.procs[winner]; Matches(s.db, w.id, w.seen) && Target(w.patch) != w.seen
    requires later == Run(Next(s, Step(winner, now, fare)), acts)
    requires loser in later.procs && later.procs[loser].Seen?
    requires later.procs[loser].id == s.procs[winner].id && later.procs[loser].seen == s.procs[winner].seen
    ensures Next(later, Step(loser, now', fare')) == later.(procs := later.procs - {loser})
  {
    WinMovesRowOn(s, winner, now, fare);
    NextKeepsProcs(s, Step(winner, now, fare));
    PassedStatusNeverMatches(Next(s, Step(winner, now, fare)), s.procs[winner].id, s.procs[winner].seen, acts);
    LosesConflict(later, loser, now', fare');
  }

  /** What the request locked into a ride (who, when, at what price, for which route) is never written again. */
  predicate SameLock(r: Ride, q: Ride) {
    r.rider == q.rider && r.createdAt == q.createdAt && r.terms == q.terms
  }

  lemma {:induction false} PriceLockHolds(before: seq<Action>, after: seq<Action>, id: RideId)
    requires before <= after && id in Run(Init(), before).db.rows
    ensures id in Run(Init(), after).db.rows
    ensures SameLock(Run(Init(), before).db.rows[id], Run(Init(), after).db.rows[id])
  {
    if before != after {
      var n := |after| - 1;
      PriceLockHolds(before, after[..n], id);
      OneTransactionPerChange(Run(Init(), after[..n]), after[n]);
    }
  }

  // ----- whether the fare of a completed ride is final

  predicate FareIs(db: Db, id: RideId, fare: real) {
    id in db.rows && db.rows[id].status == COMPLETED && db.rows[id].totalFare == Some(fare)
  }

  /** The process can still write another fare: a completion may be repeated. */
  predicate Rewrites(p: Proc, id: RideId, fare: real) {
    match p
    case Completing(i) => i == id
    case Moving(i, Complete(g, _)) => i == id && g != fare
    case Seen(i, Complete(g, _), seen) => i == id && g != fare && seen == COMPLETED
    case _ => false
  }

  ghost predicate NoRewriter(s: State, id: RideId, fare: real) {
    forall pid :: pid in s.procs ==> !Rewrites(s.procs[pid], id, fare)
  }

  predicate NoNewCompletion(acts: seq<Action>, id: RideId) {
    forall i :: 0 <= i < |acts| ==> !(acts[i].Launch? && acts[i].proc == Completing(id))
  }

  lemma ResumeKeepsFare(s: State, p: Proc, now: Time, f: real, id: RideId, fare: real)
    requires ProcOk(s.db, p) && FareIs(s.db, id, fare) && !Rewrites(p, id, fare)
    ensures var o := Resume(s, p, now, f);
            FareIs(o.db, id, fare) && (o.next.Some? ==> !Rewrites(o.next.value, id, fare))
  {
  }

  lemma NextKeepsFare(s: State, a: Action, id: RideId, fare: real)
    requires ProcsOk(s) && FareIs(s.db, id, fare) && NoRewriter(s, id, fare)
    requires !(a.Launch? && a.proc == Completing(id))
    ensures FareIs(Next(s, a).db, id, fare) && NoRewriter(Next(s, a), id, fare)
  {
    if a.Step? && a.pid in s.procs {
      ResumeKeepsFare(s, s.procs[a.pid], a.now, a.fare, id, fare);
    }
  }

  lemma {:induction false} RunKeepsFare(s: State, acts: seq<Action>, id: RideId, fare: real)
    requires ProcsOk(s) && FareIs(s.db, id, fare) && NoRewriter(s, id, fare) && NoNewCompletion(acts, id)
    ensures FareIs(Run(s, acts).db, id, fare) && NoRewriter(Run(s, acts), id, fare)
  {
    if acts != [] {
      var n := |acts| - 1;
      RunKeepsFare(s, acts[..n], id, fare);
      RunKeepsProcs(s, acts[..n]);
      NextKeepsFare(Run(s, acts[..n]), acts[n], id, fare);
    }
  }

  /** A completion that has seen the ride completed commits again and replaces the fare. */
  lemma SeenCompletedAgain(s: State, pid: Pid, id: RideId, fare: real, at: Time)
    requires pid in s.procs && s.procs[pid] == Seen(id, Complete(fare, at), COMPLETED) && Matches(s.db, id, COMPLETED)
    ensures FareIs(Next(s, Step(pid, 0, 0.0)).db, id, fare)
  {
  }

  /** So does one that has yet to read it: the stutter COMPLETED to COMPLETED is allowed. */
  lemma CompletedAgain(s: State, pid: Pid, id: RideId, fare: real, at: Time) returns (acts: seq<Action>)
    requires pid in s.procs && s.procs[pid] == Moving(id, Complete(fare, at)) && Matches(s.db, id, COMPLETED)
    ensures FareIs(Run(s, acts).db, id, fare) && NoNewCompletion(acts, id)
  {
    var b := Step(pid, 0, 0.0);
    acts := [] + [b] + [b];
    RunSnoc(s, [], b);
    RunSnoc(s, [] + [b], b);
    assert Next(s, b) == s.(procs := s.procs[pid := Seen(id, Complete(fare, at), COMPLETED)]);
    SeenCompletedAgain(Next(s, b), pid, id, fare, at);
  }

  /** A process that can write another fare does, in some continuation. */
  lemma RewriterRewrites(s: State, pid: Pid, id: RideId, fare: real) returns (acts: seq<Action>)
    requires FareIs(s.db, id, fare) && fare >= 0.0 && pid in s.procs && Rewrites(s.procs[pid], id, fare)
    ensures NoNewCompletion(acts, id) && !FareIs(Run(s, acts).db, id, fare)
  {
    match s.procs[pid]
    case Completing(_) =>
      var other := fare + 1.0;
      var a := Step(pid, 0, other + s.db.rows[id].terms.promoDiscount);
      var u := Next(s, a);
      assert u == s.(procs := s.procs[pid := Moving(id, Complete(other, 0))]);
      var more := CompletedAgain(u, pid, id, other, 0);
      acts := [a] + more;
      assert Run(s, [a]) == u;
      RunConcat(s, [a], more);
    case Moving(_, Complete(g, at)) =>
      acts := CompletedAgain(s, pid, id, g, at);
    case Seen(_, Complete(g, at), _) =>
      var b := Step(pid, 0, 0.0);
      SeenCompletedAgain(s, pid, id, g, at);
      acts := [] + [b];
      RunSnoc(s, [], b);
  }

  /**
   Exactly when the fare of a completed ride is final (until somebody asks for another completion): if
   and only if no completion is in flight that will commit a different fare, or has yet to compute its.
   */
  lemma FareFinalIffNoRewriter(s: State, id: RideId, fare: real)
    requires Inv(s) && FareIs(s.db, id, fare)
    ensures NoRewriter(s, id, fare) <==> forall acts :: NoNewCompletion(acts, id) ==> FareIs(Run(s, acts).db, id, fare)
  {
    assert RowOk(id, s.db.rows[id], s.db.log);
    if NoRewriter(s, id, fare) {
      forall acts | NoNewCompletion(acts, id) ensures FareIs(Run(s, acts).db, id, fare) {
        RunKeepsFare(s, acts, id, fare);
      }
    } else {
      var pid :| pid in s.procs && Rewrites(s.procs[pid], id, fare);
      var acts := RewriterRewrites(s, pid, id, fare);
      assert !FareIs(Run(s, acts).db, id, fare);
    }
  }

  // ----- rows and events

  lemma UpdateIsLegal(s: State, a: Action)
    requires ProcsOk(s) && ChangeOf(s, a).Updated?
    ensures var c, t := ChangeOf(s, a), Next(s, a);
            && c.id in s.db.rows && c.id in t.db.rows && t.db.rows[c.id].status == Target(c.patch)
            && AssertTransition(s.db.rows[c.id].status, t.db.rows[c.id].status)
  {
    OneTransactionPerChange(s, a);
    CommitsAreLegal(s, a);
  }

  /** After every run, an update that commits is allowed from the status the row has at that moment. */
  lemma EveryCommitIsLegal(acts: seq<Action>, a: Action)
    requires ChangeOf(Run(Init(), acts), a).Updated?
    ensures var s := Run(Init(), acts);
            var c, t := ChangeOf(s, a), Next(s, a);
            && c.id in s.db.rows && c.id in t.db.rows && t.db.rows[c.id].status == Target(c.patch)
            && AssertTransition(s.db.rows[c.id].status, t.db.rows[c.id].status)
  {
    AlwaysInv(acts);
    UpdateIsLegal(Run(Init(), acts), a);
  }

  /** No change without its event: the log only grows, and while it does not the rows stay as they are. */
  lemma {:induction false} NoSilentChange(s: State, acts: seq<Action>)
    ensures s.db.log <= Run(s, acts).db.log
    ensures |Run(s, acts).db.log| == |s.db.log| ==> Run(s, acts).db == s.db
  {
    if acts != [] {
      var n := |acts| - 1;
      NoSilentChange(s, acts[..n]);
      OneTransactionPerChange(Run(s, acts[..n]), acts[n]);
    }
  }

  /** No event without its change: every event is the row of its ride as it was when the event was written. */
  lemma {:induction false} EventsAreSnapshots(acts: seq<Action>, n: nat) returns (k: nat)
    requires n < |Run(Init(), acts).db.log|
    ensures k <= |acts| && var db, e := Run(Init(), acts[..k]).db, Run(Init(), acts).db.log[n];
            |db.log| == n + 1 && e.ride in db.rows && Shows(e, e.ride, db.rows[e.ride])
  {
    var m := |acts| - 1;
    var s := Run(Init(), acts[..m]);
    OneTransactionPerChange(s, acts[m]);
    if n < |s.db.log| {
      k := EventsAreSnapshots(acts[..m], n);
      assert acts[..m][..k] == acts[..k];
    } else {
      k := |acts|;
      assert acts[..k] == acts;
    }
  }
}
