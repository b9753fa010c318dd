/**
 The claim key's time to live is what first-accept-wins rests on: one expiry under a process that
 may still write is enough for two drivers to be written.
 */
module DispatchRace {
  import opened Common
  import opened RideStateMachine
  import opened Dispatch
  import opened DispatchLog
  import opened DispatchClaim

  predicate NoExpiry(acts: seq<Action>) {
    forall i :: 0 <= i < |acts| ==> !acts[i].Expire?
  }

  /** `t` can follow `s` without any key expiring. */
  ghost predicate Leads(s: State, t: State) {
    exists acts :: NoExpiry(acts) && Run(s, acts) == t
  }

  predicate Names(db: Db, id: RideId, d: DriverId) {
    exists i :: 0 <= i < |db.log| && db.log[i].ride == id && db.log[i].driver == Some(d)
  }

  lemma LeadsSelf(s: State)
    ensures Leads(s, s)
  {
    assert NoExpiry([]) && Run(s, []) == s;
  }

  lemma LeadsOn(s: State, t: State, a: Action)
    requires Leads(s, t) && !a.Expire?
    ensures Leads(s, Next(t, a))
  {
    var acts :| NoExpiry(acts) && Run(s, acts) == t;
    var more := acts + [a];
    assert more[..|acts|] == acts;
    assert NoExpiry(more) && Run(s, more) == Next(t, a);
  }

  /** One step away from the conditional update that writes `d`, on a ride in MATCHING. */
  predicate AboutToAccept(s: State, pid: Pid, id: RideId, d: DriverId) {
    && pid in s.procs && id in s.db.rows && s.db.rows[id].status == MATCHING
    && match s.procs[pid] {
         case Moving(i, Accept(e, _)) => i == id && e == d
         case Seen(i, Accept(e, _), seen) => i == id && e == d && seen == MATCHING
         case _ => false
       }
  }

  function Distance(p: Proc): nat {
    match p
    case Claimed(_, _) => 4
    case Finalizing(_, _) => 3
    case Moving(_, Match(_)) => 2
    case Seen(_, Match(_), _) => 1
    case _ => 0
  }

  /** Nothing but the process itself, the ride and its own offer changes while it runs. */
  predicate OnlyRan(s: State, t: State, pid: Pid, id: RideId, d: DriverId) {
    && t.claims == s.claims
    && t.procs - {pid} == s.procs - {pid}
    && (t.offers == s.offers || t.offers == s.offers - {(id, d)})
  }

  lemma OneStepCloser(s: State, pid: Pid, id: RideId, d: DriverId) returns (t: State)
    requires pid in s.procs && ProcOk(s.db, s.procs[pid]) && id in s.db.rows && Open(s.db.rows[id].status)
    requires Holds(s.procs[pid], id, d) && Viable(s.db, s.procs[pid]) && Distance(s.procs[pid]) > 0
    ensures t == Next(s, Step(pid, 0, 0.0))
    ensures pid in t.procs && id in t.db.rows && Open(t.db.rows[id].status)
    ensures Holds(t.procs[pid], id, d) && Viable(t.db, t.procs[pid])
    ensures Distance(t.procs[pid]) < Distance(s.procs[pid])
    ensures OnlyRan(s, t, pid, id, d)
  {
    t := Next(s, Step(pid, 0, 0.0));
    assert t.procs - {pid} == s.procs - {pid};
  }

  lemma {:induction false} GetReady(s0: State, s: State, pid: Pid, id: RideId, d: DriverId) returns (t: State)
    requires Inv(s) && Leads(s0, s) && pid in s.procs && id in s.db.rows && Open(s.db.rows[id].status)
    requires Holds(s.procs[pid], id, d) && Viable(s.db, s.procs[pid])
    ensures Leads(s0, t) && AboutToAccept(t, pid, id, d)
    ensures OnlyRan(s, t, pid, id, d)
    decreases Distance(s.procs[pid])
  {
    if Distance(s.procs[pid]) == 0 {
      assert ProcOk(s.db, s.procs[pid]);
      t := s;
    } else {
      var u := OneStepCloser(s, pid, id, d);
      NextKeepsInv(s, Step(pid, 0, 0.0));
      LeadsOn(s0, s, Step(pid, 0, 0.0));
      t := GetReady(s0, u, pid, id, d);
    }
  }

  lemma {:induction false} LeadsAll(s: State, t: State, acts: seq<Action>)
    requires Leads(s, t) && NoExpiry(acts)
    ensures Leads(s, Run(t, acts))
  {
    if acts != [] {
      var n := |acts| - 1;
      LeadsAll(s, t, acts[..n]);
      LeadsOn(s, Run(t, acts[..n]), acts[n]);
    }
  }

  function Answer(pid: Pid, id: RideId, d: DriverId): seq<Action> {
    var b := Step(pid, 0, 0.0);
    [] + [Launch(pid, Answering(id, d))] + [b] + [b] + [b] + [b]
  }

  /** With the claim key gone, a second driver's answer finds its offer, claims the ride and sees it open. */
  lemma AnswerGetsThrough(s: State, pid: Pid, id: RideId, d: DriverId) returns (t: State)
    requires pid !in s.procs && id in s.db.rows && s.db.rows[id].status == MATCHING
    requires (id, d) in s.offers && id !in s.claims
    ensures t == Run(s, Answer(pid, id, d))
    ensures t.db == s.db && t.procs == s.procs[pid := Moving(id, Accept(d, 0))]
  {
    var b := Step(pid, 0, 0.0);
    var a := Launch(pid, Answering(id, d));
    var s1 := Next(s, Launch(pid, Answering(id, d)));
    assert s1 == s.(procs := s.procs[pid := Answering(id, d)]);
    var s2 := Next(s1, b);
    assert s2 == s.(procs := s.procs[pid := Claiming(id, d)]);
    var s3 := Next(s2, b);
    assert s3 == s.(claims := s.claims[id := d], procs := s.procs[pid := Claimed(id, d)]);
    var s4 := Next(s3, b);
    assert s4.procs == s.procs[pid := Finalizing(id, d)] && s4.db == s.db;
    t := Next(s4, b);
    RunAnswer(s, pid, id, d);
  }

  /**
   An accept that comes after the claim key was deleted claims a ride that is already past matching:
   its process ends, the ride stays as it is, and the key is left behind in the late driver's name.
   */
  lemma LateAcceptChangesNothing(s: State, pid: Pid, id: RideId, d: DriverId) returns (t: State)
    requires pid !in s.procs && id in s.db.rows && !Open(s.db.rows[id].status)
    requires (id, d) in s.offers && id !in s.claims
    ensures t == Run(s, Answer(pid, id, d))
    ensures t.db == s.db && t.claims == s.claims[id := d] && pid !in t.procs
  {
    var b := Step(pid, 0, 0.0);
    var a := Launch(pid, Answering(id, d));
    var s1 := Next(s, a);
    assert s1 == s.(procs := s.procs[pid := Answering(id, d)]);
    var s2 := Next(s1, b);
    assert s2 == s.(procs := s.procs[pid := Claiming(id, d)]);
    var s3 := Next(s2, b);
    assert s3 == s.(claims := s.claims[id := d], procs := s.procs[pid := Claimed(id, d)]);
    var s4 := Next(s3, b);
    assert s4.procs == s.procs[pid := Finalizing(id, d)] && s4.db == s.db && s4.claims == s3.claims;
    t := Next(s4, b);
    RunAnswer(s, pid, id, d);
  }

  lemma RunAnswer(s: State, pid: Pid, id: RideId, d: DriverId)
    ensures var a, b := Launch(pid, Answering(id, d)), Step(pid, 0, 0.0);
            Run(s, Answer(pid, id, d)) == Next(Next(Next(Next(Next(s, a), b), b), b), b)
  {
    var a, b := Launch(pid, Answering(id, d)), Step(pid, 0, 0.0);
    RunSnoc(s, [], a);
    RunSnoc(s, [] + [a], b);
    RunSnoc(s, [] + [a] + [b], b);
    RunSnoc(s, [] + [a] + [b] + [b], b);
    RunSnoc(s, [] + [a] + [b] + [b] + [b], b);
  }

  lemma CommitNames(s: State, pid: Pid, id: RideId, d: DriverId, at: Time, seen: Status)
    requires pid in s.procs && s.procs[pid] == Seen(id, Accept(d, at), seen) && Matches(s.db, id, seen)
    ensures var t := Next(s, Step(pid, 0, 0.0));
            && s.db.log <= t.db.log && Names(t.db, id, d)
            && id in t.db.rows && t.db.rows[id].status == ACCEPTED
            && t.procs == s.procs[pid := Releasing(id, d)]
  {
    var t := Next(s, Step(pid, 0, 0.0));
    assert t.db == Write(s.db, id, Patched(s.db.rows[id], Accept(d, at)));
    assert t.db.log[|s.db.log|].ride == id && t.db.log[|s.db.log|].driver == Some(d);
  }

  lemma ReadNames(s: State, pid: Pid, id: RideId, d: DriverId, at: Time)
    requires pid in s.procs && s.procs[pid] == Moving(id, Accept(d, at))
    requires id in s.db.rows && (s.db.rows[id].status == MATCHING || s.db.rows[id].status == ACCEPTED)
    ensures Next(s, Step(pid, 0, 0.0))
         == s.(procs := s.procs[pid := Seen(id, Accept(d, at), s.db.rows[id].status)])
  {
  }

  /** A process about to read or update the ride for its ACCEPTED transition gets its driver written. */
  lemma Writes(s0: State, s: State, pid: Pid, id: RideId, d: DriverId) returns (t: State)
    requires Leads(s0, s)
    requires AboutToAccept(s, pid, id, d)
          || (id in s.db.rows && s.db.rows[id].status == ACCEPTED && pid in s.procs
              && s.procs[pid] == Moving(id, Accept(d, 0)))
    ensures Leads(s0, t) && s.db.log <= t.db.log && Names(t.db, id, d)
    ensures id in t.db.rows && t.db.rows[id].status == ACCEPTED
    ensures t.procs == s.procs[pid := Releasing(id, d)]
  {
    var at, step := s.procs[pid].patch.at, Step(pid, 0, 0.0);
    var u := s;
    if s.procs[pid].Moving? {
      ReadNames(s, pid, id, d, at);
      LeadsOn(s0, s, step);
      u := Next(s, step);
    }
    CommitNames(u, pid, id, d, at, s.db.rows[id].status);
    LeadsOn(s0, u, step);
    t := Next(u, step);
  }

  lemma NamesKept(db: Db, db': Db, id: RideId, d: DriverId)
    requires Names(db, id, d) && db.log <= db'.log
    ensures Names(db', id, d)
  {
    var i :| 0 <= i < |db.log| && db.log[i].ride == id && db.log[i].driver == Some(d);
    assert db'.log[i] == db.log[i];
  }

  lemma BothGetReady(s0: State, p: Pid, q: Pid, id: RideId, d1: DriverId, d2: DriverId) returns (t: State)
    requires Inv(s0) && id in s0.db.rows && Open(s0.db.rows[id].status) && id !in s0.claims
    requires p in s0.procs && Holds(s0.procs[p], id, d1) && Viable(s0.db, s0.procs[p])
    requires q !in s0.procs && (id, d2) in s0.offers && d1 != d2
    ensures Leads(s0, t) && p != q && AboutToAccept(t, p, id, d1)
    ensures q in t.procs && t.procs[q] == Moving(id, Accept(d2, 0))
  {
    LeadsSelf(s0);
    var s1 := GetReady(s0, s0, p, id, d1);
    assert q !in s1.procs by { assert q !in s1.procs - {p}; }
    t := AnswerGetsThrough(s1, q, id, d2);
    LeadsAll(s0, s1, Answer(q, id, d2));
  }

  lemma BothWrite(s0: State, s: State, p: Pid, q: Pid, id: RideId, d1: DriverId, d2: DriverId) returns (t: State)
    requires Leads(s0, s) && p != q && AboutToAccept(s, p, id, d1)
    requires q in s.procs && s.procs[q] == Moving(id, Accept(d2, 0))
    ensures Leads(s0, t) && Names(t.db, id, d1) && Names(t.db, id, d2)
  {
    var s3 := Writes(s0, s, p, id, d1);
    t := Writes(s0, s3, q, id, d2);
    NamesKept(s3.db, t.db, id, d1);
  }

  /**
   Let the claim key of an open ride expire under a process that may still write driver `d1`, while
   another driver has a live offer: then both drivers can be written, with no further key expiring.
   */
  lemma UntimelyExpiryAdmitsTwo(s: State, p: Pid, q: Pid, id: RideId, d1: DriverId, d2: DriverId) returns (t: State)
    requires Inv(s) && id in s.db.rows && Open(s.db.rows[id].status)
    requires p in s.procs && Holds(s.procs[p], id, d1) && Viable(s.db, s.procs[p])
    requires q !in s.procs && (id, d2) in s.offers && d1 != d2
    ensures Leads(Next(s, Expire(id)), t) && Names(t.db, id, d1) && Names(t.db, id, d2)
  {
    var s0 := Next(s, Expire(id));
    NextKeepsInv(s, Expire(id));
    var s2 := BothGetReady(s0, p, q, id, d1, d2);
    t := BothWrite(s0, s2, p, q, id, d1, d2);
  }

  ghost predicate OneDriver(db: Db, id: RideId) {
    forall d, e :: Names(db, id, d) && Names(db, id, e) ==> d == e
  }

  lemma {:induction false} ClaimInvAlong(s: State, acts: seq<Action>)
    requires ClaimInv(s) && TimelyRun(s, acts)
    ensures ClaimInv(Run(s, acts))
  {
    if acts != [] {
      var n := |acts| - 1;
      TimelyPrefix(s, acts, n);
      ClaimInvAlong(s, acts[..n]);
      NextKeepsClaimInv(Run(s, acts[..n]), acts[n]);
    }
  }

  /**
   Exactly when an expiry is harmless. In a state reached without an untimely expiry, let the claim
   key of an open ride expire while a driver other than the claim's holds a live offer. The ride is
   safe from a second driver in every continuation without another expiry if and only if no process
   that may still write the ride's driver is in flight.
   */
  lemma ExpirySafeIffNoWriterInFlight(s: State, id: RideId, d2: DriverId)
    requires ClaimInv(s) && id in s.db.rows && Open(s.db.rows[id].status)
    requires (id, d2) in s.offers && (id in s.claims ==> s.claims[id] != d2)
    ensures Timely(s, Expire(id))
       <==> forall t :: Leads(Next(s, Expire(id)), t) ==> OneDriver(t.db, id)
  {
    var s0 := Next(s, Expire(id));
    if Timely(s, Expire(id)) {
      NextKeepsClaimInv(s, Expire(id));
      forall t | Leads(s0, t) ensures OneDriver(t.db, id) {
        var acts :| NoExpiry(acts) && Run(s0, acts) == t;
        ClaimInvAlong(s0, acts);
      }
    } else {
      var p, d1 :| p in s.procs && Holds(s.procs[p], id, d1) && Viable(s.db, s.procs[p]);
      assert HolderOk(s, s.procs[p], id, d1);
      var q := FreshPid(s.procs);
      var t := UntimelyExpiryAdmitsTwo(s, p, q, id, d1, d2);
      assert Leads(s0, t) && !OneDriver(t.db, id);
    }
  }

  lemma {:induction false} PidBound(pids: set<Pid>) returns (n: Pid)
    ensures forall p :: p in pids ==> p < n
  {
    if pids == {} {
      n := 0;
    } else {
      var p :| p in pids;
      var m := PidBound(pids - {p});
      n := if m <= p then p + 1 else m;
      assert forall r :: r in pids ==> r == p || r in pids - {p};
    }
  }

  lemma FreshPid(procs: map<Pid, Proc>) returns (q: Pid)
    ensures q !in procs
  {
    q := PidBound(procs.Keys);
  }
}
