/**
 What consumers of ride events see: the events of one ride in the order in which a relay without
 failures hands them to the broker.
 */
module Consumers {
  import opened Common
  import opened RideStateMachine
  import opened Outbox
  import opened OutboxOrder
  import Dispatch
  import opened DispatchLog
  import opened RideTiming
  import DispatchRace
  import Scenarios

  /** The outbox holds the events of the rides, stamped with the beginnings of their transactions. */
  predicate Publishes(s: State, t: Timed) {
    && |s.rows| == |t.s.db.log| == |t.begun|
    && forall n :: 0 <= n < |s.rows| ==> s.rows[n].event == t.s.db.log[n] && s.rows[n].createdAt == t.begun[n]
  }

  /** The events the broker took, in the order it took them. */
  function Delivered(log: seq<Dispatch.Event>, sent: seq<Id>): seq<Dispatch.Event>
    requires forall b :: 0 <= b < |sent| ==> sent[b] < |log|
  {
    seq(|sent|, b requires 0 <= b < |sent| => log[sent[b]])
  }

  /** The statuses of one ride as consumers see them. */
  function View(log: seq<Dispatch.Event>, sent: seq<Id>, id: Dispatch.RideId): seq<Status>
    requires forall b :: 0 <= b < |sent| ==> sent[b] < |log|
  {
    Trace(Delivered(log, sent), id)
  }

  lemma ViewSnoc(log: seq<Dispatch.Event>, sent: seq<Id>, x: Id, id: Dispatch.RideId)
    requires x < |log| && forall b :: 0 <= b < |sent| ==> sent[b] < |log|
    ensures View(log, sent + [x], id) == View(log, sent, id) + if log[x].ride == id then [log[x].status] else []
  {
    assert Delivered(log, sent + [x]) == Delivered(log, sent) + [log[x]];
    LogAppend(Delivered(log, sent), log[x], id);
  }

  /**
   Rows in some order of sending: each once, and an event goes out before an earlier one of its ride only
   if that one repeats the status the ride had.
   */
  ghost predicate SentWell(log: seq<Dispatch.Event>, sent: seq<Id>) {
    && (forall b :: 0 <= b < |sent| ==> sent[b] < |log|)
    && (forall a, b :: 0 <= a < b < |sent| ==> sent[a] != sent[b])
    && (forall b, i :: 0 <= b < |sent| && 0 <= i < sent[b] && log[i].ride == log[sent[b]].ride ==>
          i in sent[..b] || Repeats(log, i))
  }

  /** A relay without failures delivers an event before an earlier one of its ride only past a repetition. */
  lemma OnlyRepeatsComeLate(cfg: Config, start: Time, acts: seq<Action>, t: Timed)
    requires cfg.broker && SmoothRun(cfg, Init(start), acts) && Reached(t)
    requires Publishes(Run(cfg, Init(start), acts), t)
    ensures SentWell(t.s.db.log, Run(cfg, Init(start), acts).sent)
  {
    var s, log := Run(cfg, Init(start), acts), t.s.db.log;
    FailureFreeOrder(cfg, start, acts);
    forall b, i | 0 <= b < |s.sent| && 0 <= i < s.sent[b] && log[i].ride == log[s.sent[b]].ride
      ensures i in s.sent[..b] || Repeats(log, i)
    {
      OnlyRepeatsAreOvertaken(t, i, s.sent[b]);
    }
  }

  // ----- the log of a ride, event by event

  /** An event is allowed after the one before it; the first one is REQUESTED. */
  predicate StepOk(log: seq<Dispatch.Event>, n: nat)
    requires n < |log|
  {
    var before := Last(log[..n], log[n].ride);
    if before == None then log[n].status == REQUESTED else AssertTransition(before.value.status, log[n].status)
  }

  lemma {:induction false} LastIsLast(log: seq<Dispatch.Event>, id: Dispatch.RideId)
    ensures Last(log, id) == None <==> Trace(log, id) == []
    ensures var t := Trace(log, id);
            Last(log, id).Some? ==> t != [] && t[|t| - 1] == Last(log, id).value.status
  {
    if log != [] {
      LastIsLast(log[..|log| - 1], id);
    }
  }

  lemma {:induction false} TraceSteps(log: seq<Dispatch.Event>, id: Dispatch.RideId, n: nat)
    requires Trace(log, id) == [] || LegalTrace(Trace(log, id))
    requires n < |log| && log[n].ride == id
    ensures StepOk(log, n)
    decreases |log|
  {
    var m := |log| - 1;
    var short, t := Trace(log[..m], id), Trace(log, id);
    LastIsLast(log[..m], id);
    if n == m {
      assert t == short + [log[m].status];
      assert short != [] ==> AssertTransition(t[|short| - 1], t[|short|]);
    } else {
      assert short == t[..|short|];
      if short != [] {
        forall i | 0 < i < |short| ensures AssertTransition(short[i - 1], short[i]) {
          assert short[i - 1] == t[i - 1] && short[i] == t[i];
        }
      }
      TraceSteps(log[..m], id, n);
      assert log[..m][..n] == log[..n];
    }
  }

  ghost predicate LogOk(log: seq<Dispatch.Event>) {
    forall n :: 0 <= n < |log| ==> StepOk(log, n)
  }

  lemma RideLogOk(acts: seq<Dispatch.Action>)
    ensures LogOk(Dispatch.Run(Dispatch.Init(), acts).db.log)
  {
    var log := Dispatch.Run(Dispatch.Init(), acts).db.log;
    forall n | 0 <= n < |log| ensures StepOk(log, n) {
      LogRefinesStateMachine(acts, log[n].ride);
      TraceSteps(log, log[n].ride, n);
    }
  }

  /** The last event of a ride before position `n`. */
  lemma {:induction false} LastAt(log: seq<Dispatch.Event>, id: Dispatch.RideId) returns (k: nat)
    requires Last(log, id).Some?
    ensures k < |log| && log[k] == Last(log, id).value && log[k].ride == id
    ensures forall i :: k < i < |log| ==> log[i].ride != id
  {
    var n := |log| - 1;
    if log[n].ride == id {
      k := n;
    } else {
      k := LastAt(log[..n], id);
    }
  }

  lemma SomeBefore(log: seq<Dispatch.Event>, n: nat, i: nat)
    requires i < n <= |log|
    ensures Last(log[..n], log[i].ride).Some?
  {
    assert log[..n][i] == log[i];
    if Last(log[..n], log[i].ride) == None {
      NoEvent(log[..n], log[i].ride);
    }
  }

  /** Later events of a ride rank higher, or have the same status. */
  lemma {:induction false} LogAscends(log: seq<Dispatch.Event>, i: nat, j: nat)
    requires LogOk(log) && i <= j < |log| && log[i].ride == log[j].ride
    ensures log[i].status == log[j].status || Rank(log[i].status) < Rank(log[j].status)
    decreases j
  {
    if i < j {
      var id := log[j].ride;
      assert StepOk(log, j);
      SomeBefore(log, j, i);
      var k := LastAt(log[..j], id);
      assert log[..j][k] == log[k] && i <= k by {
        assert log[..j][i] == log[i];
      }
      LogAscends(log, i, k);
    }
  }

  /** The event with which a ride got the status that event `n` has. */
  lemma {:induction false} FirstWith(log: seq<Dispatch.Event>, n: nat) returns (q: nat)
    requires n < |log|
    ensures q <= n && log[q].ride == log[n].ride && log[q].status == log[n].status && !Repeats(log, q)
    decreases n
  {
    if Repeats(log, n) {
      var k := LastAt(log[..n], log[n].ride);
      assert log[..n][k] == log[k];
      q := FirstWith(log, k);
    } else {
      q := n;
    }
  }

  // ----- what consumers see

  /** A consumer that ignores statuses ranking below the one it has. */
  function Advances(seen: seq<Status>): seq<Status> {
    if seen == [] then []
    else
      var n := |seen| - 1;
      var before := Advances(seen[..n]);
      if before != [] && Rank(seen[n]) < Rank(before[|before| - 1]) then before else before + [seen[n]]
  }

  lemma AdvancesSnoc(seen: seq<Status>, s: Status)
    ensures var before := Advances(seen);
            Advances(seen + [s]) ==
              if before != [] && Rank(s) < Rank(before[|before| - 1]) then before else before + [s]
  {
    assert (seen + [s])[..|seen|] == seen;
  }

  /** Such a consumer's latest status is that of some event it got, and none it got ranks higher. */
  ghost predicate UpToDate(log: seq<Dispatch.Event>, sent: seq<Id>, id: Dispatch.RideId, seen: seq<Status>) {
    && (forall b :: 0 <= b < |sent| ==> sent[b] < |log|)
    && (seen == [] ==> forall b :: 0 <= b < |sent| ==> log[sent[b]].ride != id)
    && (seen != [] ==>
          && LegalTrace(seen)
          && (exists b :: 0 <= b < |sent| && log[sent[b]].ride == id && log[sent[b]].status == seen[|seen| - 1])
          && forall b :: 0 <= b < |sent| && log[sent[b]].ride == id ==>
               Rank(log[sent[b]].status) <= Rank(seen[|seen| - 1]))
  }

  /** If the next event is not ignored, it is allowed after the consumer's latest status. */
  lemma NextAllowed(log: seq<Dispatch.Event>, sent: seq<Id>, b: nat, id: Dispatch.RideId, seen: seq<Status>)
    requires LogOk(log) && SentWell(log, sent) && b < |sent| && log[sent[b]].ride == id
    requires UpToDate(log, sent[..b], id, seen)
    requires seen != [] ==> Rank(log[sent[b]].status) >= Rank(seen[|seen| - 1])
    ensures if seen == [] then log[sent[b]].status == REQUESTED
            else AssertTransition(seen[|seen| - 1], log[sent[b]].status)
  {
    var m, early := sent[b], sent[..b];
    assert StepOk(log, m);
    if Last(log[..m], id) == None {
      if seen != [] {
        FirstEventAllowed(log, early, m, id, seen);
      }
    } else {
      var p := LastAt(log[..m], id);
      assert log[..m][p] == log[p];
      var q := FirstWith(log, p);
      assert q in early;
      var a :| 0 <= a < |early| && early[a] == q;
      if seen != [] {
        LaterEventAllowed(log, early, p, m, id, seen);
      }
    }
  }

  lemma FirstEventAllowed(log: seq<Dispatch.Event>, early: seq<Id>, m: nat, id: Dispatch.RideId, seen: seq<Status>)
    requires LogOk(log) && m < |log| && log[m].ride == id && Last(log[..m], id) == None
    requires seen != [] && UpToDate(log, early, id, seen) && Rank(log[m].status) >= Rank(seen[|seen| - 1])
    ensures log[m].status == seen[|seen| - 1]
  {
    var c :| 0 <= c < |early| && log[early[c]].ride == id && log[early[c]].status == seen[|seen| - 1];
    if early[c] < m {
      SomeBefore(log, m, early[c]);
    } else {
      LogAscends(log, m, early[c]);
    }
  }

  lemma LaterEventAllowed(
    log: seq<Dispatch.Event>, early: seq<Id>, p: nat, m: nat, id: Dispatch.RideId, seen: seq<Status>)
    requires LogOk(log) && p < m < |log| && log[m].ride == log[p].ride == id
    requires AssertTransition(log[p].status, log[m].status) && forall i :: p < i < m ==> log[i].ride != id
    requires seen != [] && UpToDate(log, early, id, seen) && Rank(log[m].status) >= Rank(seen[|seen| - 1])
    requires Rank(log[p].status) <= Rank(seen[|seen| - 1])
    ensures AssertTransition(seen[|seen| - 1], log[m].status)
  {
    var c :| 0 <= c < |early| && log[early[c]].ride == id && log[early[c]].status == seen[|seen| - 1];
    if early[c] <= p {
      LogAscends(log, early[c], p);
    } else {
      LogAscends(log, m, early[c]);
    }
  }

  /** How one more delivery changes what such a consumer has. */
  lemma OneMoreSeen(log: seq<Dispatch.Event>, early: seq<Id>, x: Id, id: Dispatch.RideId)
    requires x < |log| && forall b :: 0 <= b < |early| ==> early[b] < |log|
    ensures var seen := Advances(View(log, early, id));
            Advances(View(log, early + [x], id)) ==
              if log[x].ride != id || (seen != [] && Rank(log[x].status) < Rank(seen[|seen| - 1])) then seen
              else seen + [log[x].status]
  {
    ViewSnoc(log, early, x, id);
    if log[x].ride == id {
      AdvancesSnoc(View(log, early, id), log[x].status);
    } else {
      assert View(log, early + [x], id) == View(log, early, id);
    }
  }

  lemma {:induction false} AdvancesLawfully(log: seq<Dispatch.Event>, sent: seq<Id>, b: nat, id: Dispatch.RideId)
    requires LogOk(log) && SentWell(log, sent) && b <= |sent|
    ensures UpToDate(log, sent[..b], id, Advances(View(log, sent[..b], id)))
    decreases b
  {
    if b > 0 {
      AdvancesLawfully(log, sent, b - 1, id);
      assert sent[..b] == sent[..b - 1] + [sent[b - 1]];
      OneMoreSeen(log, sent[..b - 1], sent[b - 1], id);
      AdvanceOnce(log, sent, b - 1, id, Advances(View(log, sent[..b - 1], id)));
    }
  }

  lemma AdvanceOnce(log: seq<Dispatch.Event>, sent: seq<Id>, b: nat, id: Dispatch.RideId, seen: seq<Status>)
    requires LogOk(log) && SentWell(log, sent) && b < |sent| && UpToDate(log, sent[..b], id, seen)
    ensures var x := sent[b];
            UpToDate(log, sent[..b] + [x], id,
                     if log[x].ride != id || (seen != [] && Rank(log[x].status) < Rank(seen[|seen| - 1])) then seen
                     else seen + [log[x].status])
  {
    var x := sent[b];
    if log[x].ride != id || (seen != [] && Rank(log[x].status) < Rank(seen[|seen| - 1])) {
      StillUpToDate(log, sent[..b], x, id, seen);
    } else {
      NextAllowed(log, sent, b, id, seen);
      NowUpToDate(log, sent[..b], x, id, seen);
    }
  }

  lemma NowUpToDate(log: seq<Dispatch.Event>, early: seq<Id>, x: Id, id: Dispatch.RideId, seen: seq<Status>)
    requires UpToDate(log, early, id, seen) && x < |log| && log[x].ride == id
    requires if seen == [] then log[x].status == REQUESTED
             else AssertTransition(seen[|seen| - 1], log[x].status) && Rank(log[x].status) >= Rank(seen[|seen| - 1])
    ensures UpToDate(log, early + [x], id, seen + [log[x].status])
  {
    var all := early + [x];
    assert all[|early|] == x;
    if seen != [] {
      LegalAppend(seen, log[x].status);
    }
  }

  lemma StillUpToDate(log: seq<Dispatch.Event>, early: seq<Id>, x: Id, id: Dispatch.RideId, seen: seq<Status>)
    requires UpToDate(log, early, id, seen) && x < |log|
    requires log[x].ride == id ==> seen != [] && Rank(log[x].status) <= Rank(seen[|seen| - 1])
    ensures UpToDate(log, early + [x], id, seen)
  {
    var all := early + [x];
    if seen != [] {
      var c :| 0 <= c < |early| && log[early[c]].ride == id && log[early[c]].status == seen[|seen| - 1];
      assert all[c] == early[c];
    }
  }

  /**
   Whatever overtakes what: a consumer that ignores statuses ranking below the one it has sees a lawful
   history of every ride.
   */
  lemma ConsumersSeeLawfulHistory(cfg: Config, start: Time, acts: seq<Action>, t: Timed, id: Dispatch.RideId)
    requires cfg.broker && SmoothRun(cfg, Init(start), acts) && Reached(t)
    requires Publishes(Run(cfg, Init(start), acts), t)
    ensures SentWell(t.s.db.log, Run(cfg, Init(start), acts).sent)
    ensures var seen := Advances(View(t.s.db.log, Run(cfg, Init(start), acts).sent, id)); seen == [] || LegalTrace(seen)
  {
    var sent, log := Run(cfg, Init(start), acts).sent, t.s.db.log;
    OnlyRepeatsComeLate(cfg, start, acts, t);
    ReachedLogOk(t);
    AdvancesLawfully(log, sent, |sent|, id);
    assert sent[..|sent|] == sent;
  }

  lemma {:induction false} Untimed(ms: seq<Moment>) returns (acts: seq<Dispatch.Action>)
    ensures Unroll(Start(), ms).s == Dispatch.Run(Dispatch.Init(), acts)
  {
    if ms == [] {
      acts := [];
    } else {
      var before := Untimed(ms[..|ms| - 1]);
      var a := ms[|ms| - 1].action;
      acts := before + [a];
      Dispatch.RunSnoc(Dispatch.Init(), before, a);
    }
  }

  lemma ReachedLogOk(t: Timed)
    requires Reached(t)
    ensures LogOk(t.s.db.log)
  {
    var ms :| PossibleRun(Start(), ms) && Unroll(Start(), ms) == t;
    var acts := Untimed(ms);
    RideLogOk(acts);
  }

  // ----- the unfiltered history

  lemma {:induction false} TraceOfPrefix(log: seq<Dispatch.Event>, m: nat, id: Dispatch.RideId)
    requires m <= |log|
    ensures Trace(log[..m], id) <= Trace(log, id)
  {
    if m < |log| {
      TraceOfPrefix(log[..|log| - 1], m, id);
      assert log[..|log| - 1][..m] == log[..m];
    } else {
      assert log[..m] == log;
    }
  }

  lemma {:induction false} NothingNew(log: seq<Dispatch.Event>, c: nat, x: nat, id: Dispatch.RideId)
    requires c <= x <= |log| && forall i :: c <= i < x ==> log[i].ride != id
    ensures Trace(log[..x], id) == Trace(log[..c], id)
  {
    if c < x {
      NothingNew(log, c, x - 1, id);
      assert log[..x] == log[..x - 1] + [log[x - 1]];
      LogAppend(log[..x - 1], log[x - 1], id);
    }
  }

  ghost predicate InCommitOrder(log: seq<Dispatch.Event>, sent: seq<Id>) {
    && (forall b :: 0 <= b < |sent| ==> sent[b] < |log|)
    && (forall a, b :: 0 <= a < b < |sent| ==> sent[a] != sent[b])
    && (forall b, i :: 0 <= b < |sent| && 0 <= i < sent[b] && log[i].ride == log[sent[b]].ride ==> i in sent[..b])
  }

  /** What was sent of a ride is what it logged up to some point. */
  lemma {:induction false} SentUpTo(log: seq<Dispatch.Event>, sent: seq<Id>, b: nat, id: Dispatch.RideId)
    returns (c: nat)
    requires InCommitOrder(log, sent) && b <= |sent|
    ensures c <= |log| && View(log, sent[..b], id) == Trace(log[..c], id)
    ensures forall i: nat :: i < |log| && log[i].ride == id ==> (i in sent[..b] <==> i < c)
    decreases b
  {
    if b == 0 {
      c := 0;
    } else {
      var c0 := SentUpTo(log, sent, b - 1, id);
      var early, x := sent[..b - 1], sent[b - 1];
      assert sent[..b] == early + [x];
      ViewSnoc(log, early, x, id);
      if log[x].ride == id {
        assert c0 <= x by { assert x !in early; }
        NothingNew(log, c0, x, id);
        assert log[..x + 1] == log[..x] + [log[x]];
        LogAppend(log[..x], log[x], id);
        c := x + 1;
      } else {
        c := c0;
      }
    }
  }

  /** As long as nothing overtakes anything, consumers see exactly the beginning of the ride's history. */
  lemma InOrderMeansPrefix(log: seq<Dispatch.Event>, sent: seq<Id>, id: Dispatch.RideId)
    requires InCommitOrder(log, sent)
    ensures View(log, sent, id) <= Trace(log, id)
  {
    var c := SentUpTo(log, sent, |sent|, id);
    assert sent[..|sent|] == sent;
    TraceOfPrefix(log, c, id);
  }

  lemma HistoryUnlessOvertaken(cfg: Config, start: Time, acts: seq<Action>, t: Timed, id: Dispatch.RideId)
    requires cfg.broker && SmoothRun(cfg, Init(start), acts) && Publishes(Run(cfg, Init(start), acts), t)
    requires forall i, j :: !Overtakes(Run(cfg, Init(start), acts).rows, j, i)
    ensures InCommitOrder(t.s.db.log, Run(cfg, Init(start), acts).sent)
    ensures View(t.s.db.log, Run(cfg, Init(start), acts).sent, id) <= Trace(t.s.db.log, id)
  {
    var s := Run(cfg, Init(start), acts);
    FailureFreeOrder(cfg, start, acts);
    FairInOrder(s);
    forall b, i | 0 <= b < |s.sent| && 0 <= i < s.sent[b] && t.s.db.log[i].ride == t.s.db.log[s.sent[b]].ride
      ensures i in s.sent[..b]
    {
      assert SameRide(s.rows, i, s.sent[b]);
    }
    InOrderMeansPrefix(t.s.db.log, s.sent, id);
  }

  /** Where an event of a ride stands in its trace. */
  lemma TracePosition(log: seq<Dispatch.Event>, n: nat, id: Dispatch.RideId) returns (k: nat)
    requires n < |log| && log[n].ride == id
    ensures k == |Trace(log[..n], id)| < |Trace(log, id)| && Trace(log, id)[k] == log[n].status
    ensures forall m :: n < m <= |log| ==> k < |Trace(log[..m], id)|
  {
    k := |Trace(log[..n], id)|;
    assert log[..n + 1] == log[..n] + [log[n]];
    LogAppend(log[..n], log[n], id);
    TraceOfPrefix(log, n + 1, id);
    forall m | n < m <= |log| ensures k < |Trace(log[..m], id)| {
      TraceOfPrefix(log[..m], n + 1, id);
      assert log[..m][..n + 1] == log[..n + 1];
    }
  }

  /** A history in which a lower status follows a higher one is not lawful. */
  lemma FallingIsUnlawful(log: seq<Dispatch.Event>, n: nat, m: nat, id: Dispatch.RideId)
    requires n < m < |log| && log[n].ride == log[m].ride == id && Rank(log[m].status) < Rank(log[n].status)
    ensures Trace(log, id) != [] && !LegalTrace(Trace(log, id))
  {
    var i := TracePosition(log, n, id);
    var j := TracePosition(log, m, id);
    if LegalTrace(Trace(log, id)) {
      TraceAscends(Trace(log, id), i, j);
    }
  }

  lemma {:induction false} Filled(cfg: Config, t: Timed, m: nat) returns (acts: seq<Action>)
    requires m <= |t.begun| == |t.s.db.log| && forall n :: 0 <= n < |t.begun| ==> t.begun[n] <= t.now
    ensures SmoothRun(cfg, Init(t.now), acts)
    ensures var s := Run(cfg, Init(t.now), acts);
            && s.sent == [] && s.relays == map[] && s.now == t.now && |s.rows| == m
            && forall n :: 0 <= n < m ==> s.rows[n] == Row(t.s.db.log[n], PENDING, 0, t.begun[n], t.begun[n])
  {
    acts := [];
    if m > 0 {
      var before := Filled(cfg, t, m - 1);
      var a := Insert(t.s.db.log[m - 1], t.begun[m - 1]);
      RunSnoc(cfg, Init(t.now), before, a);
      SmoothSnoc(cfg, Init(t.now), before, a);
      acts := before + [a];
    }
  }

  /** A batch that holds everything, the overtaking event before the overtaken one. */
  lemma BatchOfAll(s: State, i: Id, j: Id) returns (ids: seq<Id>, a: nat, b: nat)
    requires InOrder(s) && 0 !in s.relays && s.sent == [] && |s.rows| < BATCH_SIZE && Overtakes(s.rows, j, i)
    ensures OldestBatch(s.rows, s.now, BATCH_SIZE, ids) && a < b < |ids| && ids[a] == j && ids[b] == i
  {
    ids := FirstBy(s.rows, s.now, LateFirst(s.rows), BATCH_SIZE);
    LateFirstIsBatch(s.rows, s.now, BATCH_SIZE);
    OvertakerFirst(s, i, j);
    DistinctAtMost(ids, |s.rows|);
    RowMeans(s, i);
    assert i in ids && j in ids;
    a :| 0 <= a < |ids| && ids[a] == j && i !in ids[..a + 1];
    b :| 0 <= b < |ids| && ids[b] == i;
    NotEarly(ids, a, b);
  }

  lemma NotEarly(ids: seq<Id>, a: nat, b: nat)
    requires a < |ids| && b < |ids| && ids[b] !in ids[..a + 1]
    ensures a < b
  {
    forall c | 0 <= c <= a ensures ids[c] != ids[b] {
      assert ids[..a + 1][c] == ids[c];
    }
  }

  lemma SendAll(cfg: Config, s: State, i: Id, j: Id) returns (u: State, a: nat, b: nat)
    requires cfg.broker && InOrder(s) && 0 !in s.relays && s.sent == [] && |s.rows| < BATCH_SIZE
    requires Overtakes(s.rows, j, i)
    ensures Drains(cfg, s, u) && SameRows(s, u) && a < b < |u.sent| && u.sent[a] == j && u.sent[b] == i
    ensures forall c :: 0 <= c < |u.sent| ==> u.sent[c] < |u.rows|
  {
    var ids;
    ids, a, b := BatchOfAll(s, i, j);
    u := SendFirst(cfg, s, ids);
  }

  /** An outbox in which all events of the rides wait. */
  lemma AllWaiting(cfg: Config, t: Timed) returns (acts: seq<Action>, s: State)
    requires cfg.broker && Reached(t) && |t.begun| == |t.s.db.log|
    ensures SmoothRun(cfg, Init(t.now), acts) && s == Run(cfg, Init(t.now), acts)
    ensures InOrder(s) && 0 !in s.relays && s.sent == [] && Publishes(s, t)
  {
    BegunByNow(t);
    acts := Filled(cfg, t, |t.begun|);
    RunInOrder(cfg, Init(t.now), acts);
    s := Run(cfg, Init(t.now), acts);
  }

  lemma UnlawfulView(log: seq<Dispatch.Event>, sent: seq<Id>, a: nat, b: nat, id: Dispatch.RideId)
    requires a < b < |sent| && forall c :: 0 <= c < |sent| ==> sent[c] < |log|
    requires log[sent[a]].ride == log[sent[b]].ride == id && Rank(log[sent[b]].status) < Rank(log[sent[a]].status)
    ensures View(log, sent, id) != [] && !LegalTrace(View(log, sent, id))
  {
    FallingIsUnlawful(Delivered(log, sent), a, b, id);
  }

  /** The overtaking that the ride protocol allows makes a history consumers see unlawful. */
  lemma OvertakenHistory(cfg: Config, t: Timed, n: nat, id: Dispatch.RideId) returns (acts: seq<Action>)
    requires cfg.broker && Reached(t) && |t.begun| == |t.s.db.log| < BATCH_SIZE
    requires n + 1 < |t.s.db.log| && t.s.db.log[n].ride == t.s.db.log[n + 1].ride == id
    requires t.begun[n + 1] < t.begun[n] && Rank(t.s.db.log[n].status) < Rank(t.s.db.log[n + 1].status)
    ensures SmoothRun(cfg, Init(t.now), acts)
    ensures var s := Run(cfg, Init(t.now), acts);
            && Publishes(s, t) && (forall b :: 0 <= b < |s.sent| ==> s.sent[b] < |t.s.db.log|)
            && View(t.s.db.log, s.sent, id) != [] && !LegalTrace(View(t.s.db.log, s.sent, id))
  {
    var before, s := AllWaiting(cfg, t);
    var u, a, b := SendAll(cfg, s, n, n + 1);
    acts := SmoothThen(cfg, Init(t.now), before, u);
    UnlawfulView(t.s.db.log, u.sent, a, b, id);
  }

  /** A ride in which ARRIVED overtakes a repeated ACCEPTED. */
  lemma OvertakingRide() returns (t: Timed)
    ensures Reached(t) && |t.begun| == |t.s.db.log| == 5
    ensures t.s.db.log[3].ride == t.s.db.log[4].ride == 0 && t.begun[4] < t.begun[3]
    ensures t.s.db.log[3].status == ACCEPTED && t.s.db.log[4].status == ARRIVED
  {
    var s := Scenarios.BothSawAccepted();
    var ride :| DispatchRace.NoExpiry(ride) && Dispatch.Run(Dispatch.Init(), ride) == s;
    var t0 := CanBeTimed(ride);
    t := RepeatsCanBeOvertaken(t0, 0, 2);
  }

  /** And it does happen: some run of rides and relay shows consumers ARRIVED before a repeated ACCEPTED. */
  lemma HistoryCanBeUnlawful(cfg: Config) returns (t: Timed, acts: seq<Action>)
    requires cfg.broker
    ensures Reached(t) && SmoothRun(cfg, Init(t.now), acts)
    ensures var s := Run(cfg, Init(t.now), acts);
            && Publishes(s, t) && (forall b :: 0 <= b < |s.sent| ==> s.sent[b] < |t.s.db.log|)
            && View(t.s.db.log, s.sent, 0) != [] && !LegalTrace(View(t.s.db.log, s.sent, 0))
  {
    t := OvertakingRide();
    acts := OvertakenHistory(cfg, t, 3, 0);
  }
}
