/**
 First accept wins: which driver a ride can be given, over every interleaving of driver answers,
 matching jobs and their retries, cancellations, expiring keys and crashes.
 */
module DispatchClaim {
  import opened Common
  import opened RideStateMachine
  import opened Dispatch
  import opened DispatchLog

  /** The process has read `driver` out of (or put it into) the ride's claim key and may still write it. */
  predicate Holds(p: Proc, id: RideId, driver: DriverId) {
    match p
    case Claimed(i, d) => i == id && d == driver
    case Finalizing(i, d) => i == id && d == driver
    case Moving(i, Match(d)) => i == id && d == driver
    case Moving(i, Accept(d, _)) => i == id && d == driver
    case Seen(i, Match(d), _) => i == id && d == driver
    case Seen(i, Accept(d, _), _) => i == id && d == driver
    case _ => false
  }

  /** `finalizeMatch` has already found the ride open. */
  predicate PastCheck(p: Proc) {
    (p.Moving? || p.Seen?) && (p.patch.Match? || p.patch.Accept?)
  }

  /** A process whose observed status is outdated can only lose its conditional update. */
  predicate Viable(db: Db, p: Proc) {
    p.Seen? ==> Matches(db, p.id, p.seen)
  }

  predicate Unassigned(db: Db, id: RideId) {
    id in db.rows ==> Open(db.rows[id].status)
  }

  predicate HolderOk(s: State, p: Proc, id: RideId, d: DriverId) {
    Holds(p, id, d) && Viable(s.db, p) ==>
      && (Unassigned(s.db, id) ==> id in s.claims && s.claims[id] == d)
      && (PastCheck(p) && id in s.db.rows && s.db.rows[id].driver.Some? ==> s.db.rows[id].driver == Some(d))
  }

  ghost predicate HoldersOk(s: State) {
    forall pid, id, d :: pid in s.procs && Holds(s.procs[pid], id, d) ==> HolderOk(s, s.procs[pid], id, d)
  }

  /** Every driver the log ever named for a ride is the driver in its row. */
  predicate DriversOk(db: Db) {
    forall i :: 0 <= i < |db.log| && db.log[i].driver.Some? ==>
      db.log[i].ride in db.rows && db.rows[db.log[i].ride].driver == db.log[i].driver
  }

  ghost predicate ClaimInv(s: State) {
    Inv(s) && HoldersOk(s) && DriversOk(s.db)
  }

  /** The claim key of an unassigned ride does not expire under a process that may still write its driver. */
  ghost predicate Timely(s: State, a: Action) {
    a.Expire? && Unassigned(s.db, a.id) ==>
      forall pid, d :: pid in s.procs && Holds(s.procs[pid], a.id, d) ==> !Viable(s.db, s.procs[pid])
  }

  ghost predicate TimelyRun(s: State, acts: seq<Action>) {
    forall i :: 0 <= i < |acts| ==> Timely(Run(s, acts[..i]), acts[i])
  }

  // ----- the invariant

  /** An outdated observation stays outdated, an assigned ride stays assigned. */
  lemma ForwardFacts(before: Db, after: Db, p: Proc)
    requires Forward(before, after) && ProcOk(before, p)
    ensures Viable(after, p) ==> Viable(before, p)
    ensures Unassigned(after, p.id) ==> Unassigned(before, p.id)
  {
  }

  lemma DriverByStatus(id: RideId, r: Ride, log: seq<Event>)
    requires RowOk(id, r, log)
    ensures Open(r.status) ==> r.driver == None
    ensures r.status == ACCEPTED ==> r.driver.Some?
  {
    var t := Trace(log, id);
    if ACCEPTED in t {
      var i :| 0 <= i < |t| && t[i] == ACCEPTED;
      TraceAscends(t, i, |t| - 1);
    }
  }

  /** The driver columns an action leaves behind. */
  lemma DriverAfter(s: State, a: Action, id: RideId)
    requires id in Next(s, a).db.rows
    ensures var c := ChangeOf(s, a);
            Next(s, a).db.rows[id].driver ==
              if c.Inserted? && c.id == id then None
              else if c.Updated? && c.id == id && c.patch.Accept? then Some(c.patch.driver)
              else if id in s.db.rows then s.db.rows[id].driver else None
    ensures var c := ChangeOf(s, a); !(c.Inserted? && c.id == id) ==> id in s.db.rows
  {
    OneTransactionPerChange(s, a);
    match ChangeOf(s, a) {
      case Nothing =>
      case Inserted(_, r) =>
      case Updated(k, p, _) =>
        assert p.Accept? || Patched(s.db.rows[k], p).driver == s.db.rows[k].driver;
    }
  }

  /** A process that is about to write a driver, and will succeed, writes the one already there. */
  lemma WriterAgrees(s: State, pid: Pid, q: Proc, d: DriverId)
    requires Inv(s) && pid in s.procs
    requires var p := s.procs[pid];
             p.Seen? && p.patch.Accept? && Matches(s.db, p.id, p.seen)
             && HolderOk(s, p, p.id, p.patch.driver)
             && Holds(q, p.id, d) && Viable(s.db, q) && PastCheck(q) && HolderOk(s, q, p.id, d)
    ensures s.procs[pid].patch.driver == d
  {
    var p := s.procs[pid];
    assert ProcOk(s.db, p);
    DriverByStatus(p.id, s.db.rows[p.id], s.db.log);
  }

  /** Claims of unassigned rides that somebody viable holds are never taken away. */
  lemma ClaimKept(s: State, a: Action, pid: Pid, id: RideId, d: DriverId)
    requires Inv(s) && Timely(s, a) && pid in s.procs
    requires Holds(s.procs[pid], id, d) && Viable(s.db, s.procs[pid])
    requires Unassigned(s.db, id) && id in s.claims
    ensures id in Next(s, a).claims && Next(s, a).claims[id] == s.claims[id]
  {
    if a.Step? && a.pid in s.procs {
      assert ProcOk(s.db, s.procs[a.pid]);
    }
  }

  lemma BystanderOk(s: State, a: Action, pid: Pid, id: RideId, d: DriverId)
    requires ClaimInv(s) && Timely(s, a) && pid in s.procs && Holds(s.procs[pid], id, d)
    ensures HolderOk(Next(s, a), s.procs[pid], id, d)
  {
    var s', q := Next(s, a), s.procs[pid];
    if Viable(s'.db, q) {
      StepForward(s, a);
      assert ProcOk(s.db, q);
      ForwardFacts(s.db, s'.db, q);
      assert HolderOk(s, q, id, d);
      if Unassigned(s'.db, id) {
        ClaimKept(s, a, pid, id, d);
      }
      if PastCheck(q) && id in s'.db.rows {
        DriverAfter(s, a, id);
        var c := ChangeOf(s, a);
        if c.Updated? && c.id == id && c.patch.Accept? {
          WriterIsHolder(s, a);
          WriterAgrees(s, a.pid, q, d);
        }
      }
    }
  }

  lemma WriterIsHolder(s: State, a: Action)
    requires HoldersOk(s)
    ensures var c := ChangeOf(s, a);
            c.Updated? && c.patch.Accept? ==>
              && a.Step? && a.pid in s.procs && s.procs[a.pid] == Seen(c.id, c.patch, c.seen)
              && Matches(s.db, c.id, c.seen)
              && HolderOk(s, s.procs[a.pid], c.id, c.patch.driver)
  {
    var c := ChangeOf(s, a);
    if c.Updated? && c.patch.Accept? {
      assert Holds(s.procs[a.pid], c.id, c.patch.driver);
    }
  }

  /** A process that comes to hold a claim, or carries on with one, holds it rightly. */
  lemma ResumeHolder(s: State, p: Proc, now: Time, fare: real, procs: map<Pid, Proc>, id: RideId, d: DriverId)
    requires ProcOk(s.db, p) && (Holds(p, id, d) ==> HolderOk(s, p, id, d))
    requires id in s.db.rows && Open(s.db.rows[id].status) ==> s.db.rows[id].driver == None
    requires var o := Resume(s, p, now, fare); o.next.Some? && Holds(o.next.value, id, d)
    ensures var o := Resume(s, p, now, fare);
            HolderOk(State(o.db, o.claims, o.offers, procs), o.next.value, id, d)
  {
  }

  lemma StepperOk(s: State, pid: Pid, now: Time, fare: real, id: RideId, d: DriverId)
    requires ClaimInv(s) && pid in s.procs
    requires var s' := Next(s, Step(pid, now, fare)); pid in s'.procs && Holds(s'.procs[pid], id, d)
    ensures var s' := Next(s, Step(pid, now, fare)); HolderOk(s', s'.procs[pid], id, d)
  {
    var p := s.procs[pid];
    var s' := Next(s, Step(pid, now, fare));
    if id in s.db.rows {
      DriverByStatus(id, s.db.rows[id], s.db.log);
    }
    ResumeHolder(s, p, now, fare, s'.procs, id, d);
  }

  lemma NextKeepsHolders(s: State, a: Action)
    requires ClaimInv(s) && Timely(s, a)
    ensures HoldersOk(Next(s, a))
  {
    var s' := Next(s, a);
    forall pid, id, d | pid in s'.procs && Holds(s'.procs[pid], id, d)
      ensures HolderOk(s', s'.procs[pid], id, d)
    {
      if a.Step? && a.pid == pid {
        StepperOk(s, pid, a.now, a.fare, id, d);
      } else {
        assert pid in s.procs && s'.procs[pid] == s.procs[pid];
        BystanderOk(s, a, pid, id, d);
      }
    }
  }

  lemma NextKeepsDrivers(s: State, a: Action)
    requires ClaimInv(s)
    ensures DriversOk(Next(s, a).db)
  {
    var db, db' := s.db, Next(s, a).db;
    OneTransactionPerChange(s, a);
    WriterIsHolder(s, a);
    forall i | 0 <= i < |db'.log| && db'.log[i].driver.Some?
      ensures db'.log[i].ride in db'.rows && db'.rows[db'.log[i].ride].driver == db'.log[i].driver
    {
      if i < |db.log| {
        var id := db.log[i].ride;
        DriverAfter(s, a, id);
        var c := ChangeOf(s, a);
        if c.Updated? && c.id == id && c.patch.Accept? {
          WriterRepeats(s, a);
        }
      }
    }
  }

  lemma WriterRepeats(s: State, a: Action)
    requires ClaimInv(s)
    ensures var c := ChangeOf(s, a);
            c.Updated? && c.patch.Accept? && s.db.rows[c.id].driver.Some? ==>
              s.db.rows[c.id].driver == Some(c.patch.driver)
  {
    WriterIsHolder(s, a);
  }

  lemma NextKeepsClaimInv(s: State, a: Action)
    requires ClaimInv(s) && Timely(s, a)
    ensures ClaimInv(Next(s, a))
  {
    NextKeepsInv(s, a);
    NextKeepsHolders(s, a);
    NextKeepsDrivers(s, a);
  }

  lemma TimelyPrefix(s: State, acts: seq<Action>, n: nat)
    requires TimelyRun(s, acts) && n <= |acts|
    ensures TimelyRun(s, acts[..n])
  {
    forall i | 0 <= i < n ensures Timely(Run(s, acts[..n][..i]), acts[..n][i]) {
      assert acts[..n][..i] == acts[..i];
    }
  }

  lemma {:induction false} AlwaysClaimInv(acts: seq<Action>)
    requires TimelyRun(Init(), acts)
    ensures ClaimInv(Run(Init(), acts))
  {
    if acts != [] {
      var n := |acts| - 1;
      TimelyPrefix(Init(), acts, n);
      AlwaysClaimInv(acts[..n]);
      NextKeepsClaimInv(Run(Init(), acts[..n]), acts[n]);
    }
  }

  /** At most one driver is ever written for a ride, and it is the one in the row. */
  lemma FirstAcceptWins(acts: seq<Action>, i: nat, j: nat)
    requires TimelyRun(Init(), acts)
    requires var log := Run(Init(), acts).db.log;
             i < |log| && j < |log| && log[i].ride == log[j].ride
             && log[i].driver.Some? && log[j].driver.Some?
    ensures var db := Run(Init(), acts).db;
            && db.log[i].driver == db.log[j].driver
            && db.log[i].ride in db.rows && db.rows[db.log[i].ride].driver == db.log[i].driver
  {
    AlwaysClaimInv(acts);
  }
}
