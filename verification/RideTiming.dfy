/**
 When the transactions of a ride begin. A call reads the ride, begins its transaction later, and
 commits later still; outbox rows are stamped with the beginning, so the stamps need not follow the
 order of the commits.
 */
module RideTiming {
  import opened Common
  import opened RideStateMachine
  import opened Dispatch
  import opened DispatchLog

  /** The dispatch protocol with the time of each process's last read, and when the transaction of each event began. */
  datatype Timed = Timed(s: State, now: Time, readAt: map<Pid, Time>, begun: seq<Time>)

  /** An action at its time; `began` is when the transaction it commits began, if it commits one. */
  datatype Moment = Moment(action: Action, at: Time, began: Time)

  predicate Commits(s: State, a: Action) {
    |Next(s, a).db.log| > |s.db.log|
  }

  predicate JustRead(s: State, a: Action) {
    a.Step? && a.pid in Next(s, a).procs && Next(s, a).procs[a.pid].Seen?
  }

  function After(t: Timed, m: Moment): Timed {
    Timed(Next(t.s, m.action), m.at,
          if JustRead(t.s, m.action) then t.readAt[m.action.pid := m.at] else t.readAt,
          if Commits(t.s, m.action) then t.begun + [m.began] else t.begun)
  }

  /** Time does not run backwards, and a transaction begins after the answer to the read before it. */
  predicate Possible(t: Timed, m: Moment) {
    && t.now <= m.at
    && (Commits(t.s, m.action) ==>
          && m.began <= m.at
          && (m.action.Step? ==> m.action.pid in t.readAt && t.readAt[m.action.pid] < m.began))
  }

  function Unroll(t: Timed, ms: seq<Moment>): Timed {
    if ms == [] then t else After(Unroll(t, ms[..|ms| - 1]), ms[|ms| - 1])
  }

  predicate PossibleRun(t: Timed, ms: seq<Moment>) {
    ms == []
    || (PossibleRun(t, ms[..|ms| - 1]) && Possible(Unroll(t, ms[..|ms| - 1]), ms[|ms| - 1]))
  }

  function Start(): Timed {
    Timed(Init(), 0, map[], [])
  }

  ghost predicate Reached(t: Timed) {
    exists ms :: PossibleRun(Start(), ms) && Unroll(Start(), ms) == t
  }

  lemma ReachedOn(t: Timed, m: Moment)
    requires Reached(t) && Possible(t, m)
    ensures Reached(After(t, m))
  {
    var ms :| PossibleRun(Start(), ms) && Unroll(Start(), ms) == t;
    assert (ms + [m])[..|ms|] == ms;
    assert PossibleRun(Start(), ms + [m]);
  }

  // ----- which events can be overtaken

  /** The event repeats the status the ride already had. */
  predicate Repeats(log: seq<Event>, n: nat)
    requires n < |log|
  {
    var before := Last(log[..n], log[n].ride);
    before.Some? && before.value.status == log[n].status
  }

  /** A call that can still commit has seen every event that began before its read, repetitions apart. */
  ghost predicate SawAll(t: Timed, pid: Pid)
    requires |t.begun| == |t.s.db.log|
  {
    pid in t.s.procs && t.s.procs[pid].Seen? ==>
      && pid in t.readAt && t.readAt[pid] <= t.now
      && (Matches(t.s.db, t.s.procs[pid].id, t.s.procs[pid].seen) ==>
            var log, id := t.s.db.log, t.s.procs[pid].id;
            forall n :: 0 <= n < |log| && log[n].ride == id && t.begun[n] > t.readAt[pid] ==> Repeats(log, n))
  }

  ghost predicate OnlyRepeats(log: seq<Event>, begun: seq<Time>)
    requires |begun| == |log|
  {
    forall n, m :: 0 <= n < m < |log| && log[n].ride == log[m].ride && begun[m] <= begun[n] ==> Repeats(log, n)
  }

  ghost predicate TimedInv(t: Timed) {
    && Inv(t.s) && |t.begun| == |t.s.db.log|
    && (forall n :: 0 <= n < |t.begun| ==> t.begun[n] <= t.now)
    && (forall pid :: SawAll(t, pid))
    && OnlyRepeats(t.s.db.log, t.begun)
  }

  lemma {:induction false} NoEvent(log: seq<Event>, id: RideId)
    requires Last(log, id) == None
    ensures forall n :: 0 <= n < |log| ==> log[n].ride != id
  {
    if log != [] {
      NoEvent(log[..|log| - 1], id);
    }
  }

  lemma RepeatsKept(log: seq<Event>, log': seq<Event>, n: nat)
    requires log <= log' && n < |log|
    ensures Repeats(log', n) == Repeats(log, n)
  {
    assert log'[..n] == log[..n];
  }

  lemma LogGrows(s: State, a: Action)
    ensures var t := Next(s, a);
            && s.db.log <= t.db.log && |t.db.log| <= |s.db.log| + 1
            && (Commits(s, a) <==> ChangeOf(s, a) != Nothing)
            && (Commits(s, a) ==> t.db.log == s.db.log + [t.db.log[|s.db.log|]])
  {
    OneTransactionPerChange(s, a);
  }

  /** A status that was seen, and that the ride is in after a commit, was not left by it. */
  lemma NotLeft(before: Status, after: Status, seen: Status)
    requires AssertTransition(before, after) && (seen == before || Rank(seen) < Rank(before)) && after == seen
    ensures before == seen
  {
  }

  lemma LastRepeats(log: seq<Event>, e: Event)
    requires Last(log, e.ride).Some? && Last(log, e.ride).value.status == e.status
    ensures Repeats(log + [e], |log|)
  {
    assert (log + [e])[..|log|] == log;
  }

  /** An update under which an observation stays up to date is a repetition. */
  lemma HarmlessUpdate(db: Db, id: RideId, p: Patch, seen: Status)
    requires id in db.rows && Last(db.log, id) == Some(Snapshot(id, db.rows[id]))
    requires AssertTransition(db.rows[id].status, Target(p))
    requires seen == db.rows[id].status || Rank(seen) < Rank(db.rows[id].status)
    requires Target(p) == seen
    ensures var r := Patched(db.rows[id], p);
            db.rows[id].status == seen && Repeats(db.log + [Snapshot(id, r)], |db.log|)
  {
    NotLeft(db.rows[id].status, Target(p), seen);
    LastRepeats(db.log, Snapshot(id, Patched(db.rows[id], p)));
  }

  lemma Observed(s: State, pid: Pid)
    requires Inv(s) && pid in s.procs && s.procs[pid].Seen?
    ensures var p := s.procs[pid];
            && p.id in s.db.rows && Last(s.db.log, p.id) == Some(Snapshot(p.id, s.db.rows[p.id]))
            && (p.seen == s.db.rows[p.id].status || Rank(p.seen) < Rank(s.db.rows[p.id].status))
  {
    assert ProcOk(s.db, s.procs[pid]) && RowOk(s.procs[pid].id, s.db.rows[s.procs[pid].id], s.db.log);
  }

  /** A commit under which a call keeps its observation up to date is a repetition. */
  lemma HarmlessCommit(s: State, a: Action, pid: Pid)
    requires Inv(s) && Commits(s, a) && pid in s.procs && s.procs[pid].Seen?
    requires Matches(Next(s, a).db, s.procs[pid].id, s.procs[pid].seen)
    ensures Matches(s.db, s.procs[pid].id, s.procs[pid].seen)
    ensures Next(s, a).db.log[|s.db.log|].ride == s.procs[pid].id ==> Repeats(Next(s, a).db.log, |s.db.log|)
  {
    var id, seen, c := s.procs[pid].id, s.procs[pid].seen, ChangeOf(s, a);
    LogGrows(s, a);
    OneTransactionPerChange(s, a);
    CommitsAreLegal(s, a);
    Observed(s, pid);
    HarmlessChange(s.db, Next(s, a).db, c, id, seen);
  }

  lemma HarmlessChange(db: Db, db': Db, c: Change, id: RideId, seen: Status)
    requires id in db.rows && Last(db.log, id) == Some(Snapshot(id, db.rows[id]))
    requires seen == db.rows[id].status || Rank(seen) < Rank(db.rows[id].status)
    requires match c
             case Nothing => false
             case Inserted(k, r) => k !in db.rows && db' == Write(db, k, r)
             case Updated(k, p, _) =>
               && k in db.rows && db' == Write(db, k, Patched(db.rows[k], p))
               && AssertTransition(db.rows[k].status, Target(p))
    requires Matches(db', id, seen)
    ensures Matches(db, id, seen)
    ensures |db.log| < |db'.log| && (db'.log[|db.log|].ride == id ==> Repeats(db'.log, |db.log|))
  {
    if c.Updated? && c.id == id {
      HarmlessUpdate(db, id, c.patch, seen);
    }
  }

  lemma NextSawAll(t: Timed, m: Moment, pid: Pid)
    requires TimedInv(t) && Possible(t, m) && |After(t, m).begun| == |After(t, m).s.db.log|
    ensures SawAll(After(t, m), pid)
  {
    var u := After(t, m);
    if pid in u.s.procs && u.s.procs[pid].Seen? {
      var log, log' := t.s.db.log, u.s.db.log;
      LogGrows(t.s, m.action);
      if m.action.Step? && m.action.pid == pid {
        assert JustRead(t.s, m.action);
        OnlyUpdatesCommit(t.s, m.action);
      } else {
        assert pid in t.s.procs && t.s.procs[pid] == u.s.procs[pid] && SawAll(t, pid);
        if Matches(u.s.db, u.s.procs[pid].id, u.s.procs[pid].seen) {
          if Commits(t.s, m.action) {
            HarmlessCommit(t.s, m.action, pid);
          } else {
            OneTransactionPerChange(t.s, m.action);
          }
          forall n | 0 <= n < |log'| && log'[n].ride == u.s.procs[pid].id && u.begun[n] > u.readAt[pid]
            ensures Repeats(log', n)
          {
            if n < |log| {
              RepeatsKept(log, log', n);
            }
          }
        }
      }
    }
  }

  lemma OnlyUpdatesCommit(s: State, a: Action)
    requires JustRead(s, a)
    ensures Next(s, a).db == s.db && !Commits(s, a)
  {
  }

  lemma NextOnlyRepeats(t: Timed, m: Moment)
    requires TimedInv(t) && Possible(t, m) && |After(t, m).begun| == |After(t, m).s.db.log|
    ensures OnlyRepeats(After(t, m).s.db.log, After(t, m).begun)
  {
    var u, a := After(t, m), m.action;
    var log, log' := t.s.db.log, u.s.db.log;
    LogGrows(t.s, a);
    OneTransactionPerChange(t.s, a);
    forall n, k | 0 <= n < k < |log'| && log'[n].ride == log'[k].ride && u.begun[k] <= u.begun[n]
      ensures Repeats(log', n)
    {
      RepeatsKept(log, log', n);
      if k == |log| {
        if a.Create? {
          NoEvent(log, a.id);
        } else {
          assert SawAll(t, a.pid);
        }
      }
    }
  }

  lemma NextTimedInv(t: Timed, m: Moment)
    requires TimedInv(t) && Possible(t, m)
    ensures TimedInv(After(t, m))
  {
    LogGrows(t.s, m.action);
    NextKeepsInv(t.s, m.action);
    forall pid ensures SawAll(After(t, m), pid) {
      NextSawAll(t, m, pid);
    }
    NextOnlyRepeats(t, m);
  }

  lemma {:induction false} AlwaysTimedInv(ms: seq<Moment>)
    requires PossibleRun(Start(), ms)
    ensures TimedInv(Unroll(Start(), ms))
  {
    if ms == [] {
      DispatchLog.AlwaysInv([]);
    } else {
      AlwaysTimedInv(ms[..|ms| - 1]);
      NextTimedInv(Unroll(Start(), ms[..|ms| - 1]), ms[|ms| - 1]);
    }
  }

  /**
   In every run: if of two events of a ride the one that committed last began first (or both began at
   the same moment), then the other one only repeats the status the ride had.
   */
  lemma OnlyRepeatsAreOvertaken(t: Timed, n: nat, m: nat)
    requires Reached(t) && n < m < |t.s.db.log| && t.s.db.log[n].ride == t.s.db.log[m].ride
    ensures |t.begun| == |t.s.db.log|
    ensures t.begun[m] <= t.begun[n] ==> Repeats(t.s.db.log, n)
  {
    var ms :| PossibleRun(Start(), ms) && Unroll(Start(), ms) == t;
    AlwaysTimedInv(ms);
  }

  lemma ReachedInv(t: Timed)
    requires Reached(t)
    ensures TimedInv(t)
  {
    var ms :| PossibleRun(Start(), ms) && Unroll(Start(), ms) == t;
    AlwaysTimedInv(ms);
  }

  // ----- and they can be

  lemma BegunByNow(t: Timed)
    requires Reached(t)
    ensures forall n :: 0 <= n < |t.begun| ==> t.begun[n] <= t.now
  {
    ReachedInv(t);
  }

  lemma KnownRead(t: Timed, pid: Pid)
    requires Reached(t)
    ensures |t.begun| == |t.s.db.log|
    ensures pid in t.s.procs && t.s.procs[pid].Seen? ==> pid in t.readAt
  {
    ReachedInv(t);
    assert SawAll(t, pid);
  }

  lemma CommitStep(s: State, pid: Pid)
    requires pid in s.procs && s.procs[pid].Seen? && Matches(s.db, s.procs[pid].id, s.procs[pid].seen)
    ensures var p, n, t := s.procs[pid], |s.db.log|, Next(s, Step(pid, 0, 0.0));
            && |t.db.log| == n + 1 && s.db.log <= t.db.log
            && t.db.log[n].ride == p.id && t.db.log[n].status == Target(p.patch)
            && p.id in t.db.rows && t.db.rows[p.id].status == Target(p.patch)
            && (pid in t.procs ==> !t.procs[pid].Seen?)
            && forall q :: q != pid && q in s.procs ==> q in t.procs && t.procs[q] == s.procs[q]
  {
  }

  /** One call's commit with a given beginning. */
  lemma CommitAt(t: Timed, pid: Pid, began: Time, at: Time) returns (u: Timed)
    requires Reached(t) && pid in t.s.procs && t.s.procs[pid].Seen?
    requires Matches(t.s.db, t.s.procs[pid].id, t.s.procs[pid].seen) && t.now <= at && began <= at
    requires forall p :: p in t.readAt ==> t.readAt[p] < began
    ensures Reached(u) && u.now == at && u.readAt == t.readAt && u.begun == t.begun + [began]
    ensures |t.begun| == |t.s.db.log| && |u.s.db.log| == |t.s.db.log| + 1 && t.s.db.log <= u.s.db.log
    ensures var p, n := t.s.procs[pid], |t.s.db.log|;
            && u.s.db.log[n].ride == p.id && u.s.db.log[n].status == Target(p.patch)
            && p.id in u.s.db.rows && u.s.db.rows[p.id].status == Target(p.patch)
    ensures forall q :: q != pid && q in t.s.procs ==> q in u.s.procs && u.s.procs[q] == t.s.procs[q]
  {
    var m := Moment(Step(pid, 0, 0.0), at, began);
    KnownRead(t, pid);
    CommitStep(t.s, pid);
    u := After(t, m);
    ReachedOn(t, m);
  }

  /**
   Whenever two calls have seen the status a ride is in and one of them only repeats it, the repetition
   can be overtaken: it commits first, and the other one, which began before it, commits second.
   */
  lemma RepeatsCanBeOvertaken(t: Timed, p: Pid, q: Pid) returns (u: Timed)
    requires Reached(t) && p != q && p in t.s.procs && q in t.s.procs && t.s.procs[p].Seen? && t.s.procs[q].Seen?
    requires t.s.procs[p].id == t.s.procs[q].id && t.s.procs[p].seen == t.s.procs[q].seen
    requires Matches(t.s.db, t.s.procs[p].id, t.s.procs[p].seen) && Target(t.s.procs[p].patch) == t.s.procs[p].seen
    requires forall r :: r in t.readAt ==> t.readAt[r] <= t.now
    ensures Reached(u) && |u.begun| == |u.s.db.log| == |t.s.db.log| + 2 && t.s.db.log <= u.s.db.log
    ensures var n := |t.s.db.log|;
            && u.s.db.log[n].ride == u.s.db.log[n + 1].ride == t.s.procs[p].id && u.begun[n + 1] < u.begun[n]
            && u.s.db.log[n].status == t.s.procs[p].seen && u.s.db.log[n + 1].status == Target(t.s.procs[q].patch)
  {
    var v := CommitAt(t, p, t.now + 2, t.now + 2);
    u := CommitAt(v, q, t.now + 1, t.now + 2);
  }

  lemma OnlySeenCommit(s: State, a: Action)
    requires a.Step? && Commits(s, a)
    ensures a.pid in s.procs && s.procs[a.pid].Seen?
  {
    OneTransactionPerChange(s, a);
  }

  lemma PossibleNow(t: Timed, a: Action)
    requires Reached(t) && forall r :: r in t.readAt ==> t.readAt[r] <= t.now
    ensures Possible(t, Moment(a, t.now + 1, t.now + 1))
  {
    if a.Step? {
      KnownRead(t, a.pid);
      if Commits(t.s, a) {
        OnlySeenCommit(t.s, a);
      }
    }
  }

  /** Every run of the protocol can happen at some times. */
  lemma {:induction false} CanBeTimed(acts: seq<Action>) returns (t: Timed)
    ensures Reached(t) && t.s == Run(Init(), acts) && forall r :: r in t.readAt ==> t.readAt[r] <= t.now
  {
    if acts == [] {
      t := Start();
      assert PossibleRun(Start(), []) && Unroll(Start(), []) == t;
    } else {
      var u := CanBeTimed(acts[..|acts| - 1]);
      var m := Moment(acts[|acts| - 1], u.now + 1, u.now + 1);
      PossibleNow(u, m.action);
      ReachedOn(u, m);
      t := After(u, m);
    }
  }
}
