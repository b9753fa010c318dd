/**
 The stores the services share, with everybody else's work going on around each await.

 A method here is one store access of one process: first the other processes run for as long as the
 schedule lets them, then the access happens without interruption. `history` records the interleaving
 that results, and `Valid` says that the stores are exactly what the dispatch protocol reaches by it.
 */
module World {
  import opened Common
  import opened RideStateMachine
  import opened Dispatch
  import DispatchLog

  /** The action belongs to the process `pid`. */
  predicate Mine(a: Action, pid: Pid) {
    (a.Launch? || a.Step? || a.GiveUp? || a.Offer? || a.Crash?) && a.pid == pid
  }

  /** The ride update that an action commits for process `pid`, if it does. */
  function Commit(s: State, a: Action, pid: Pid): seq<(RideId, Patch)> {
    var c := ChangeOf(s, a);
    if a.Step? && a.pid == pid && c.Updated? then [(c.id, c.patch)] else []
  }

  /** The ride updates that process `pid` committed in the course of an interleaving. */
  function Commits(acts: seq<Action>, pid: Pid): seq<(RideId, Patch)> {
    if acts == [] then []
    else Commits(acts[..|acts| - 1], pid) + Commit(Run(Init(), acts[..|acts| - 1]), acts[|acts| - 1], pid)
  }

  lemma CommitsSnoc(acts: seq<Action>, a: Action, pid: Pid)
    ensures Commits(acts + [a], pid) == Commits(acts, pid) + Commit(Run(Init(), acts), a, pid)
  {
    assert (acts + [a])[..|acts|] == acts;
  }

  /** The actions of a schedule that belong to other processes. */
  function Foreign(acts: seq<Action>, pid: Pid): seq<Action> {
    if acts == [] then []
    else
      var n := |acts| - 1;
      Foreign(acts[..n], pid) + if Mine(acts[n], pid) then [] else [acts[n]]
  }

  lemma ForeignKeeps(s: State, a: Action, pid: Pid)
    requires !Mine(a, pid)
    ensures pid in Next(s, a).procs <==> pid in s.procs
    ensures pid in s.procs ==> Next(s, a).procs[pid] == s.procs[pid]
  {
  }

  /** The processes whose next access is a read of their ride. */
  predicate Reading(p: Proc) {
    p.Matching? || p.Stranded? || p.Finalizing? || p.Cancelling? || p.Completing? || p.Scoring? || p.Moving?
  }

  lemma ReadingOnlyReads(s: State, p: Proc, now: Time, fare: real)
    requires Reading(p)
    ensures Resume(s, p, now, fare) == Outcome(s.db, s.claims, s.offers, Resume(s, p, now, fare).next)
  {
  }

  lemma NextOfProcsOnly(s: State, t: State, p: Proc, now: Time, fare: real)
    requires Reading(p) && s.db == t.db
    ensures Resume(s, p, now, fare).next == Resume(t, p, now, fare).next
  {
  }

  /** A term to name when the recursive definitions below are to be looked into. */
  ghost predicate Look(n: nat) {
    true
  }

  /**
   The stores are what the protocol reaches by these actions, and `done` is what each process committed
   on the way. Guarded by `Look`, so that only proofs that ask for it unfold the history.
   */
  ghost predicate Explains(acts: seq<Action>, s: State, done: Pid -> seq<(RideId, Patch)>) {
    forall n: nat :: Look(n) ==> s == Run(Init(), acts) && forall pid :: done(pid) == Commits(acts, pid)
  }

  lemma Explained(acts: seq<Action>, s: State, done: Pid -> seq<(RideId, Patch)>)
    requires Explains(acts, s, done)
    ensures s == Run(Init(), acts) && forall pid :: done(pid) == Commits(acts, pid)
  {
    assert Look(0);
  }

  lemma ExplainsNext(
    acts: seq<Action>, s: State, done: Pid -> seq<(RideId, Patch)>, a: Action, done': Pid -> seq<(RideId, Patch)>)
    requires Explains(acts, s, done) && forall pid :: done'(pid) == done(pid) + Commit(s, a, pid)
    ensures Explains(acts + [a], Next(s, a), done')
  {
    Explained(acts, s, done);
    RunSnoc(Init(), acts, a);
    forall pid ensures done'(pid) == Commits(acts + [a], pid) {
      CommitsSnoc(acts, a, pid);
    }
  }

  lemma LaunchStep(s: State, pid: Pid, p: Proc)
    requires pid !in s.procs && EntryPoint(p)
    ensures Next(s, Launch(pid, p)) == s.(procs := s.procs[pid := p]) && Commit(s, Launch(pid, p), pid) == []
  {
  }

  /** Only the conditional update commits anything. */
  lemma NothingCommitted(s: State, a: Action, pid: Pid)
    requires a.Step? && a.pid in s.procs ==> !s.procs[a.pid].Seen?
    ensures Commit(s, a, pid) == []
  {
  }

  /** Seen later, a ride is still there as its request settled it, and its status is the same or ranks higher. */
  predicate Later(before: Db, after: Db, id: RideId) {
    id in before.rows ==>
      && id in after.rows && DispatchLog.SameLock(before.rows[id], after.rows[id])
      && (before.rows[id].status == after.rows[id].status || Rank(before.rows[id].status) < Rank(after.rows[id].status))
  }

  /** Somebody has changed the ride's status meanwhile. */
  predicate Moved(before: Db, after: Db, id: RideId) {
    id in after.rows && after.rows[id].status != REQUESTED
    && (id in before.rows ==> Rank(before.rows[id].status) < Rank(after.rows[id].status))
  }

  lemma LockKept(s: State, a: Action, id: RideId)
    requires id in s.db.rows
    ensures id in Next(s, a).db.rows && DispatchLog.SameLock(s.db.rows[id], Next(s, a).db.rows[id])
  {
    OneTransactionPerChange(s, a);
  }

  lemma LaterStep(s: State, a: Action, id: RideId)
    requires DispatchLog.ProcsOk(s)
    ensures Later(s.db, Next(s, a).db, id)
  {
    if id in s.db.rows {
      LockKept(s, a, id);
      DispatchLog.NextRises(s, a);
    }
  }

  lemma LaterNext(acts: seq<Action>, s: State, done: Pid -> seq<(RideId, Patch)>, a: Action, id: RideId)
    requires Explains(acts, s, done)
    ensures Later(s.db, Next(s, a).db, id)
  {
    ProcsAreOk(acts, s, done);
    LaterStep(s, a, id);
  }

  lemma ProcsAreOk(acts: seq<Action>, s: State, done: Pid -> seq<(RideId, Patch)>)
    requires Explains(acts, s, done)
    ensures DispatchLog.ProcsOk(s)
  {
    Explained(acts, s, done);
    DispatchLog.AlwaysInv(acts);
  }

  lemma LaterOn(a: Db, b: Db, c: Db, id: RideId)
    requires Later(a, b, id) && Later(b, c, id)
    ensures Later(a, c, id)
  {
  }

  lemma MovedEarlier(a: Db, b: Db, c: Db, id: RideId)
    requires Later(a, b, id) && Moved(b, c, id)
    ensures Moved(a, c, id)
  {
  }

  /** An observation that no longer matches was overtaken by somebody else's change. */
  lemma Overtaken(a: Db, b: Db, c: Db, id: RideId, seen: Status)
    requires Later(a, b, id) && Later(b, c, id) && Matches(b, id, seen) && !Matches(c, id, seen)
    ensures Moved(a, c, id)
  {
  }

  /** In the stores, too, the status of a ride tells which columns are filled. */
  lemma FilledNow(acts: seq<Action>, s: State, done: Pid -> seq<(RideId, Patch)>, id: RideId)
    requires Explains(acts, s, done) && id in s.db.rows
    ensures DispatchLog.Filled(s.db.rows[id])
  {
    Explained(acts, s, done);
    DispatchLog.StatusFixesMilestones(acts, id);
  }

  function Lookup(db: Db, id: RideId): Option<Ride> {
    if id in db.rows then Some(db.rows[id]) else None
  }

  /** The `n`-th action was the read of process `pid`, which stood at `p`, and it found this. */
  ghost predicate ReadBy(acts: seq<Action>, n: nat, pid: Pid, p: Proc, found: Option<Ride>) {
    && 0 < n <= |acts| && acts[n - 1].Step? && acts[n - 1].pid == pid
    && forall k: nat :: Look(k) ==>
         var s := Run(Init(), acts[..n - 1]);
         pid in s.procs && s.procs[pid] == p && found == Lookup(s.db, p.id)
  }

  lemma ReadNow(acts: seq<Action>, s: State, done: Pid -> seq<(RideId, Patch)>, a: Action, p: Proc)
    requires Explains(acts, s, done) && a.Step? && a.pid in s.procs && s.procs[a.pid] == p
    ensures ReadBy(acts + [a], |acts| + 1, a.pid, p, Lookup(s.db, p.id))
  {
    Explained(acts, s, done);
    assert (acts + [a])[..|acts|] == acts;
  }

  lemma ReadKept(acts: seq<Action>, acts': seq<Action>, n: nat, pid: Pid, p: Proc, found: Option<Ride>)
    requires ReadBy(acts, n, pid, p, found) && acts <= acts'
    ensures ReadBy(acts', n, pid, p, found)
  {
    assert acts'[..n - 1] == acts[..n - 1];
    assert Look(0);
  }

  /** The claim key of the ride was absent after the first `n` actions. */
  ghost predicate AbsentAt(acts: seq<Action>, n: nat, id: RideId) {
    n <= |acts| && forall k: nat :: Look(k) ==> id !in Run(Init(), acts[..n]).claims
  }

  lemma AbsentNow(acts: seq<Action>, s: State, done: Pid -> seq<(RideId, Patch)>, id: RideId)
    requires Explains(acts, s, done) && id !in s.claims
    ensures AbsentAt(acts, |acts|, id)
  {
    Explained(acts, s, done);
    assert acts[..|acts|] == acts;
  }

  /** The claim key of the ride named this driver after the first `n` actions. */
  ghost predicate HeldAt(acts: seq<Action>, n: nat, id: RideId, d: DriverId) {
    n <= |acts| && forall k: nat :: Look(k) ==> var s := Run(Init(), acts[..n]); id in s.claims && s.claims[id] == d
  }

  lemma HeldNow(acts: seq<Action>, s: State, done: Pid -> seq<(RideId, Patch)>, id: RideId)
    requires Explains(acts, s, done) && id in s.claims
    ensures HeldAt(acts, |acts|, id, s.claims[id])
  {
    Explained(acts, s, done);
    assert acts[..|acts|] == acts;
  }

  lemma HeldKept(acts: seq<Action>, acts': seq<Action>, n: nat, id: RideId, d: DriverId)
    requires HeldAt(acts, n, id, d) && acts <= acts'
    ensures HeldAt(acts', n, id, d)
  {
    assert acts'[..n] == acts[..n];
    assert Look(0);
  }

  lemma AbsentKept(acts: seq<Action>, acts': seq<Action>, n: nat, id: RideId)
    requires AbsentAt(acts, n, id) && acts <= acts'
    ensures AbsentAt(acts', n, id)
  {
    assert acts'[..n] == acts[..n];
    assert Look(0);
  }

  /** The conditional update as a step of the protocol. */
  lemma UpdateStep(s: State, pid: Pid, id: RideId, patch: Patch, seen: Status, now: Time)
    requires pid in s.procs && s.procs[pid] == Seen(id, patch, seen)
    ensures Next(s, Step(pid, now, 0.0)) ==
              if Matches(s.db, id, seen)
              then s.(db := Write(s.db, id, Patched(s.db.rows[id], patch)),
                      procs := Put(s.procs, pid, After(id, patch, now)))
              else s.(procs := s.procs - {pid})
    ensures Commit(s, Step(pid, now, 0.0), pid) == if Matches(s.db, id, seen) then [(id, patch)] else []
  {
  }

  class Stores {
    var db: Db
    var claims: map<RideId, DriverId>
    var offers: set<(RideId, DriverId)>
    var procs: map<Pid, Proc>  // the suspended processes
    var tick: nat
    const schedule: nat -> seq<Action>  // what the others get to do at each await
    ghost var history: seq<Action>
    ghost var done: Pid -> seq<(RideId, Patch)>  // what each process has committed

    ghost function View(): State
      reads this
    {
      State(db, claims, offers, procs)
    }

    ghost predicate Valid()
      reads this
    {
      Explains(history, View(), done)
    }

    ghost predicate At(pid: Pid, p: Proc)
      reads this
    {
      pid in procs && procs[pid] == p
    }

    constructor (schedule: nat -> seq<Action>)
      ensures Valid() && View() == Init() && history == [] && tick == 0 && this.schedule == schedule
    {
      this.db, claims, offers, procs := Db(map[], []), map[], {}, map[];
      this.schedule, tick, history, done := schedule, 0, [], pid => [];
    }

    /** Nobody else does anything. */
    ghost predicate Quiet() {
      forall n :: schedule(n) == []
    }

    /** Book-keeping after a process has run: the action joins the history. */
    ghost method Record(a: Action, before: State, pid: Pid, id: RideId)
      requires Explains(history, before, done) && View() == Next(before, a)
      modifies this`history, this`done
      ensures Valid() && history == old(history) + [a]
      ensures done(pid) == old(done)(pid) + Commit(before, a, pid)
      ensures Later(before.db, db, id)
    {
      ghost var done0 := done;
      LaterNext(history, before, done, a, id);
      done := p => done0(p) + Commit(before, a, p);
      ExplainsNext(history, before, done0, a, done);
      history := history + [a];
    }

    /** While `pid` is suspended the others do what the schedule has for them, and it does nothing. */
    method Await(pid: Pid, ghost id: RideId)
      requires Valid()
      modifies this
      ensures Valid() && old(history) <= history && Later(old(db), db, id)
      ensures tick == old(tick) + 1 && history == old(history) + Foreign(schedule(old(tick)), pid)
      ensures pid in procs <==> pid in old(procs)
      ensures pid in procs ==> procs[pid] == old(procs[pid])
      ensures done(pid) == old(done)(pid)
      ensures Quiet() ==> db == old(db) && claims == old(claims) && offers == old(offers)
    {
      var acts := schedule(tick);
      tick := tick + 1;
      for i := 0 to |acts|
        invariant Valid() && tick == old(tick) + 1 && Later(old(db), db, id)
        invariant history == old(history) + Foreign(acts[..i], pid)
        invariant pid in procs <==> pid in old(procs)
        invariant pid in procs ==> procs[pid] == old(procs[pid])
        invariant done(pid) == old(done)(pid)
        invariant Quiet() ==> db == old(db) && claims == old(claims) && offers == old(offers)
      {
        assert acts[..i + 1][..i] == acts[..i];
        if !Mine(acts[i], pid) {
          Other(pid, acts[i], id);
        }
      }
      assert acts[..|acts|] == acts;
    }

    method Other(pid: Pid, a: Action, ghost id: RideId)
      requires Valid() && !Mine(a, pid)
      modifies this`db, this`claims, this`offers, this`procs, this`history, this`done
      ensures Valid() && history == old(history) + [a] && Later(old(db), db, id)
      ensures pid in procs <==> pid in old(procs)
      ensures pid in procs ==> procs[pid] == old(procs[pid])
      ensures done(pid) == old(done)(pid)
    {
      var before := State(db, claims, offers, procs);
      var after := Next(before, a);
      ForeignKeeps(before, a, pid);
      db, claims, offers, procs := after.db, after.claims, after.offers, after.procs;
      Record(a, before, pid, id);
    }

    /** A request arrives: its process starts. */
    method Launched(pid: Pid, p: Proc)
      requires Valid() && pid !in procs && EntryPoint(p)
      modifies this`procs, this`history, this`done
      ensures Valid() && old(history) <= history && At(pid, p)
      ensures done(pid) == old(done)(pid)
    {
      ghost var before := View();
      LaunchStep(before, pid, p);
      procs := procs[pid := p];
      Record(Launch(pid, p), before, pid, 0);
    }

    /** The process ends with an error between two store accesses. */
    method Abort(pid: Pid, ghost id: RideId)
      requires Valid() && pid in procs
      modifies this
      ensures tick == old(tick) + 1 && Valid() && old(history) <= history && pid !in procs && Later(old(db), db, id)
      ensures done(pid) == old(done)(pid)
    {
      Await(pid, id);
      ghost var before := View();
      procs := procs - {pid};
      NothingCommitted(before, Crash(pid), pid);
      Record(Crash(pid), before, pid, id);
    }

    /**
     SELECT the ride and decide, without a further await, how the process goes on; a completion prices
     the ride as it was read.
     */
    method ReadRide(pid: Pid, id: RideId, now: Time, price: Ride -> real) returns (ride: Option<Ride>)
      requires Valid() && pid in procs && Reading(procs[pid]) && procs[pid].id == id
      modifies this
      ensures tick == old(tick) + 1
      ensures Valid() && old(history) <= history && |old(history)| < |history| && Later(old(db), db, id)
      ensures ride == Lookup(db, id) && ReadBy(history, |history|, pid, old(procs[pid]), ride)
      ensures var fare := if ride.Some? then price(ride.value) else 0.0;
              var next := Resume(View(), old(procs[pid]), now, fare).next;
              if next.Some? then At(pid, next.value) else pid !in procs
      ensures done(pid) == old(done)(pid)
      ensures Quiet() ==> db == old(db) && claims == old(claims)
    {
      Await(pid, id);
      var p := procs[pid];
      ride := Lookup(db, id);
      var fare := if ride.Some? then price(ride.value) else 0.0;
      var before := State(db, claims, offers, procs);
      procs := Put(procs, pid, Resume(before, p, now, fare).next);
      ReadingOnlyReads(before, p, now, fare);
      NextOfProcsOnly(before, View(), p, now, fare);
      NothingCommitted(before, Step(pid, now, fare), pid);
      ReadNow(history, before, done, Step(pid, now, fare), p);
      Record(Step(pid, now, fare), before, pid, id);
    }

    /** UPDATE ... WHERE status = seen, and the outbox insert, in one transaction. */
    method UpdateRide(pid: Pid, id: RideId, patch: Patch, seen: Status, now: Time) returns (ride: Option<Ride>)
      requires Valid() && At(pid, Seen(id, patch, seen))
      modifies this
      ensures tick == old(tick) + 1 && Valid() && old(history) <= history && Later(old(db), db, id)
      ensures ride.Some? ==>
                && id in db.rows && db.rows[id] == ride.value && Carries(ride.value, patch)
                && |db.log| > 0 && Shows(db.log[|db.log| - 1], id, ride.value)
                && (if After(id, patch, now).Some? then At(pid, After(id, patch, now).value) else pid !in procs)
      ensures ride.None? ==> pid !in procs && !Matches(db, id, seen)
      ensures done(pid) == if ride.Some? then old(done)(pid) + [(id, patch)] else old(done)(pid)
      ensures Quiet() ==> (ride.Some? <==> Matches(old(db), id, seen))
    {
      Await(pid, id);
      ghost var waited := db;
      ride := UpdateNow(pid, id, patch, seen, now);
      LaterOn(old(db), waited, db, id);
    }

    /** The update itself, without interruption. */
    method UpdateNow(pid: Pid, id: RideId, patch: Patch, seen: Status, now: Time) returns (ride: Option<Ride>)
      requires Valid() && At(pid, Seen(id, patch, seen))
      modifies this`db, this`procs, this`history, this`done
      ensures Valid() && old(history) <= history && Later(old(db), db, id)
      ensures ride.Some? <==> Matches(old(db), id, seen)
      ensures ride.Some? ==>
                && ride.value == Patched(old(db.rows[id]), patch) && Carries(ride.value, patch)
                && db == Write(old(db), id, ride.value)
                && (if After(id, patch, now).Some? then At(pid, After(id, patch, now).value) else pid !in procs)
      ensures ride.None? ==> pid !in procs && db == old(db)
      ensures done(pid) == if ride.Some? then old(done)(pid) + [(id, patch)] else old(done)(pid)
    {
      ghost var before := View();
      UpdateStep(before, pid, id, patch, seen, now);
      if Matches(db, id, seen) {
        var r := Patched(db.rows[id], patch);
        db := Db(db.rows[id := r], db.log + [Snapshot(id, r)]);
        procs := Put(procs, pid, After(id, patch, now));
        ride := Some(r);
      } else {
        procs := procs - {pid};
        ride := None;
      }
      Record(Step(pid, now, 0.0), before, pid, id);
    }

    method GetOffer(pid: Pid, id: RideId, d: DriverId) returns (found: bool)
      requires Valid() && At(pid, Answering(id, d))
      modifies this
      ensures tick == old(tick) + 1 && Valid() && old(history) <= history && Later(old(db), db, id)
      ensures if found then At(pid, Claiming(id, d)) && (id, d) in offers else pid !in procs && (id, d) !in offers
      ensures done(pid) == old(done)(pid)
      ensures Quiet() ==> db == old(db) && claims == old(claims) && offers == old(offers)
    {
      Await(pid, id);
      ghost var before := View();
      found := (id, d) in offers;
      procs := if found then procs[pid := Claiming(id, d)] else procs - {pid};
      NothingCommitted(before, Step(pid, 0, 0.0), pid);
      Record(Step(pid, 0, 0.0), before, pid, id);
    }

    /** SET claim NX EX: succeeds exactly when nobody has the key. */
    method SetClaim(pid: Pid, id: RideId, d: DriverId) returns (claimed: bool)
      requires Valid() && At(pid, Claiming(id, d))
      modifies this
      ensures tick == old(tick) + 1 && Valid() && old(history) <= history && Later(old(db), db, id)
      ensures id in claims && if claimed then At(pid, Claimed(id, d)) && claims[id] == d else pid !in procs
      ensures done(pid) == old(done)(pid)
      ensures Quiet() ==> db == old(db) && (claimed <==> id !in old(claims))
      ensures Quiet() && claimed ==> claims == old(claims)[id := d]
    {
      Await(pid, id);
      ghost var before := View();
      claimed := id !in claims;
      if claimed {
        claims := claims[id := d];
        procs := procs[pid := Claimed(id, d)];
      } else {
        procs := procs - {pid};
      }
      NothingCommitted(before, Step(pid, 0, 0.0), pid);
      Record(Step(pid, 0, 0.0), before, pid, id);
    }

    method DeleteOffer(pid: Pid, id: RideId, d: DriverId)
      requires Valid() && At(pid, Claimed(id, d))
      modifies this
      ensures tick == old(tick) + 1
      ensures Valid() && old(history) <= history && At(pid, Finalizing(id, d)) && (id, d) !in offers
      ensures Later(old(db), db, id)
      ensures done(pid) == old(done)(pid)
      ensures Quiet() ==> db == old(db) && claims == old(claims)
    {
      Await(pid, id);
      ghost var before := View();
      offers := offers - {(id, d)};
      procs := procs[pid := Finalizing(id, d)];
      NothingCommitted(before, Step(pid, 0, 0.0), pid);
      Record(Step(pid, 0, 0.0), before, pid, id);
    }

    method DeleteClaim(pid: Pid, id: RideId, d: DriverId)
      requires Valid() && At(pid, Releasing(id, d))
      modifies this
      ensures tick == old(tick) + 1
      ensures Valid() && old(history) <= history && pid !in procs && id !in claims && Later(old(db), db, id)
      ensures done(pid) == old(done)(pid)
    {
      Await(pid, id);
      ghost var before := View();
      claims := claims - {id};
      procs := procs - {pid};
      NothingCommitted(before, Step(pid, 0, 0.0), pid);
      Record(Step(pid, 0, 0.0), before, pid, id);
    }

    /** A driver declines: its offer key goes away. */
    method DropOffer(pid: Pid, id: RideId, d: DriverId)
      requires Valid() && pid !in procs
      modifies this
      ensures tick == old(tick) + 1 && Valid() && old(history) <= history && pid !in procs && (id, d) !in offers
      ensures done(pid) == old(done)(pid)
    {
      Await(pid, id);
      ghost var before := View();
      offers := offers - {(id, d)};
      NothingCommitted(before, Withdraw(id, d), pid);
      Record(Withdraw(id, d), before, pid, id);
    }

    method PeekOffer(pid: Pid, id: RideId, d: DriverId) returns (found: bool)
      requires Valid() && pid !in procs
      modifies this
      ensures tick == old(tick) + 1 && Valid() && old(history) <= history && pid !in procs
      ensures found <==> (id, d) in offers
      ensures done(pid) == old(done)(pid)
    {
      Await(pid, id);
      found := (id, d) in offers;
    }

    method SetOffer(pid: Pid, id: RideId, d: DriverId)
      requires Valid() && At(pid, Waiting(id))
      modifies this
      ensures tick == old(tick) + 1 && Valid() && old(history) <= history && At(pid, Waiting(id)) && (id, d) in offers
      ensures Later(old(db), db, id) && |old(history)| < |history| && history[|history| - 1] == Offer(pid, d)
      ensures done(pid) == old(done)(pid)
    {
      Await(pid, id);
      ghost var before := View();
      offers := offers + {(id, d)};
      NothingCommitted(before, Offer(pid, d), pid);
      Record(Offer(pid, d), before, pid, id);
    }

    method PeekClaim(pid: Pid, id: RideId) returns (present: bool)
      requires Valid() && At(pid, Waiting(id))
      modifies this
      ensures tick == old(tick) + 1
      ensures Valid() && old(history) <= history && At(pid, Waiting(id)) && Later(old(db), db, id)
      ensures present <==> id in claims
      ensures if present then HeldAt(history, |history|, id, claims[id]) else AbsentAt(history, |history|, id)
      ensures done(pid) == old(done)(pid)
    {
      Await(pid, id);
      present := id in claims;
      if present {
        HeldNow(history, View(), done, id);
      } else {
        AbsentNow(history, View(), done, id);
      }
    }

    method GetClaim(pid: Pid, id: RideId) returns (claim: Option<DriverId>)
      requires Valid() && At(pid, Waiting(id))
      modifies this
      ensures tick == old(tick) + 1
      ensures Valid() && old(history) <= history && |old(history)| < |history| && Later(old(db), db, id)
      ensures match claim
              case Some(d) =>
                id in claims && claims[id] == d && At(pid, Finalizing(id, d)) && HeldAt(history, |history|, id, d)
              case None => id !in claims && At(pid, Waiting(id)) && AbsentAt(history, |history|, id)
      ensures done(pid) == old(done)(pid)
    {
      Await(pid, id);
      ghost var before := View();
      if id in claims {
        claim := Some(claims[id]);
        procs := procs[pid := Finalizing(id, claims[id])];
      } else {
        claim := None;
      }
      NothingCommitted(before, Step(pid, 0, 0.0), pid);
      Record(Step(pid, 0, 0.0), before, pid, id);
      if claim.None? {
        AbsentNow(history, View(), done, id);
      } else {
        HeldNow(history, View(), done, id);
      }
    }

    method StopWaiting(pid: Pid, id: RideId)
      requires Valid() && At(pid, Waiting(id))
      modifies this`procs, this`history, this`done
      ensures Valid() && old(history) <= history && At(pid, Stranded(id))
      ensures done(pid) == old(done)(pid)
    {
      ghost var before := View();
      procs := procs[pid := Stranded(id)];
      NothingCommitted(before, GiveUp(pid), pid);
      Record(GiveUp(pid), before, pid, id);
    }

    method InsertRide(pid: Pid, id: RideId, ride: Ride) returns (saved: bool)
      requires Valid() && pid !in procs
      requires ride == NewRide(ride.rider, ride.createdAt, ride.terms)
      modifies this
      ensures tick == old(tick) + 1 && Valid() && old(history) <= history && pid !in procs && id in db.rows
      ensures saved ==> db.rows[id] == ride && db.log != [] && Shows(db.log[|db.log| - 1], id, ride)
      ensures saved ==> id !in old(db.rows)
      ensures done(pid) == old(done)(pid)
    {
      Await(pid, id);
      ghost var before := View();
      saved := id !in db.rows;
      if saved {
        db := Db(db.rows[id := ride], db.log + [Snapshot(id, ride)]);
      }
      NothingCommitted(before, Create(id, ride.rider, ride.createdAt, ride.terms), pid);
      Record(Create(id, ride.rider, ride.createdAt, ride.terms), before, pid, id);
    }
  }
}
