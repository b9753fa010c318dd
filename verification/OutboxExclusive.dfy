/** Who works on a row: claims that take a row from nobody, and what they are exactly good for. */
module OutboxExclusive {
  import opened Outbox
  import Dispatch

  /** How often the broker took row `i`. */
  function Deliveries(sent: seq<Id>, i: Id): nat {
    if sent == [] then 0
    else Deliveries(sent[..|sent| - 1], i) + if sent[|sent| - 1] == i then 1 else 0
  }

  lemma DeliveriesSnoc(sent: seq<Id>, x: Id, i: Id)
    ensures Deliveries(sent + [x], i) == Deliveries(sent, i) + if x == i then 1 else 0
  {
    assert (sent + [x])[..|sent|] == sent;
  }

  lemma {:induction false} NeverSent(sent: seq<Id>, n: nat)
    requires forall k :: 0 <= k < |sent| ==> sent[k] < n
    ensures Deliveries(sent, n) == 0
  {
    if sent != [] {
      NeverSent(sent[..|sent| - 1], n);
    }
  }

  /** Row `i` is at position `j` of the part of relay `k`'s batch that is still to be finished. */
  predicate Holds(s: State, k: RelayId, j: nat, i: Id) {
    k in s.relays && s.relays[k].pos <= j < |s.relays[k].batch| && s.relays[k].batch[j].id == i
  }

  ghost predicate Free(s: State, i: Id) {
    forall k, j :: !Holds(s, k, j, i)
  }

  /**
   No claim takes a row that another relay has yet to finish (rows a crash or a lost write left behind
   may be taken), and a status write that reports an error did not happen.
   */
  ghost predicate Clean(s: State, a: Action) {
    && (a.Claim? ==> forall n :: 0 <= n < |a.ids| ==> Free(s, a.ids[n]))
    && (a.Mark? && !a.ok ==> !a.applied)
  }

  ghost predicate CleanRun(cfg: Config, s: State, acts: seq<Action>) {
    acts == []
    || (CleanRun(cfg, s, acts[..|acts| - 1]) && Clean(Run(cfg, s, acts[..|acts| - 1]), acts[|acts| - 1]))
  }

  lemma CleanSnoc(cfg: Config, s: State, acts: seq<Action>, a: Action)
    ensures CleanRun(cfg, s, acts + [a]) <==> CleanRun(cfg, s, acts) && Clean(Run(cfg, s, acts), a)
  {
    assert (acts + [a])[..|acts|] == acts;
  }

  function Limit(cfg: Config): nat {
    if cfg.maxAttempts < 1 then 1 else cfg.maxAttempts
  }

  predicate WithinLimit(cfg: Config, r: Row) {
    if r.status == FAILED then r.attempts <= Limit(cfg) else r.attempts < Limit(cfg)
  }

  predicate Held(s: State, k: RelayId, j: nat, i: Id)
    requires Holds(s, k, j, i)
  {
    i < |s.rows| && s.rows[i].status == PROCESSING && s.relays[k].batch[j].attempts == s.rows[i].attempts
  }

  /** What is held is being processed, with the attempts that were read, by one relay, once. */
  ghost predicate Exclusive(cfg: Config, s: State) {
    && (forall i :: 0 <= i < |s.rows| ==> WithinLimit(cfg, s.rows[i]))
    && (forall n :: 0 <= n < |s.sent| ==> s.sent[n] < |s.rows|)
    && (forall k, j, i :: Holds(s, k, j, i) ==> Held(s, k, j, i))
    && (forall k, j, k', j', i :: Holds(s, k, j, i) && Holds(s, k', j', i) ==> k == k' && j == j')
  }

  /** Only a claim makes a relay responsible for a row; everything else lets go of rows. */
  lemma HoldsBefore(cfg: Config, s: State, a: Action, k: RelayId, j: nat, i: Id)
    requires Holds(Next(cfg, s, a), k, j, i)
    ensures Holds(s, k, j, i)
         || (a.Claim? && a.relay == k && k !in s.relays && j < |a.ids| && a.ids[j] == i
             && Batch(s.rows, s.now, a.ids)
             && Next(cfg, s, a).relays[k] == Relay(Snapshots(s.rows, a.ids), 0, FirstPhase(cfg)))
    ensures ((a.Mark? && a.ok && a.relay == k && Busy(s, k, Marking))
             || (a.Fail? && a.relay == k && Busy(s, k, Failing))) ==> j > s.relays[k].pos
  {
  }

  lemma CurrentHeld(cfg: Config, s: State, k: RelayId, phase: Phase)
    requires Exclusive(cfg, s) && Busy(s, k, phase)
    ensures var i := Current(s, k).id;
            i < |s.rows| && s.rows[i].status == PROCESSING && Current(s, k).attempts == s.rows[i].attempts
    ensures forall k', j' :: Holds(s, k', j', Current(s, k).id) ==> k' == k && j' == s.relays[k].pos
  {
    assert Holds(s, k, s.relays[k].pos, Current(s, k).id);
  }

  lemma LimitKept(cfg: Config, s: State, a: Action, i: Id)
    requires Exclusive(cfg, s) && Clean(s, a) && i < |Next(cfg, s, a).rows|
    ensures WithinLimit(cfg, Next(cfg, s, a).rows[i])
  {
    if i < |s.rows| {
      assert WithinLimit(cfg, s.rows[i]);
      match a
      case Mark(k, ok, applied) => if Busy(s, k, Marking) { CurrentHeld(cfg, s, k, Marking); }
      case Fail(k, ok) => if Busy(s, k, Failing) { CurrentHeld(cfg, s, k, Failing); }
      case _ =>
    }
  }

  /** Rows held by somebody only change when their own relay is at work on them. */
  lemma HeldKept(cfg: Config, s: State, a: Action, k: RelayId, j: nat, i: Id)
    requires Exclusive(cfg, s) && Clean(s, a) && Holds(Next(cfg, s, a), k, j, i)
    ensures Held(Next(cfg, s, a), k, j, i)
  {
    HoldsBefore(cfg, s, a, k, j, i);
    if Holds(s, k, j, i) {
      assert Held(s, k, j, i);
      match a
      case Mark(k', ok, applied) => if Busy(s, k', Marking) { CurrentHeld(cfg, s, k', Marking); }
      case Fail(k', ok) => if Busy(s, k', Failing) { CurrentHeld(cfg, s, k', Failing); }
      case _ =>
    }
  }

  lemma HoldersDiffer(cfg: Config, s: State, a: Action, k: RelayId, j: nat, k': RelayId, j': nat, i: Id)
    requires Exclusive(cfg, s) && Clean(s, a)
    requires Holds(Next(cfg, s, a), k, j, i) && Holds(Next(cfg, s, a), k', j', i)
    ensures k == k' && j == j'
  {
    HoldsBefore(cfg, s, a, k, j, i);
    HoldsBefore(cfg, s, a, k', j', i);
    if a.Claim? && (!Holds(s, k, j, i) || !Holds(s, k', j', i)) {
      var n := if Holds(s, k, j, i) then j' else j;
      assert Free(s, a.ids[n]);
    }
  }

  lemma SentKept(cfg: Config, s: State, a: Action, n: nat)
    requires Exclusive(cfg, s) && n < |Next(cfg, s, a).sent|
    ensures Next(cfg, s, a).sent[n] < |Next(cfg, s, a).rows|
  {
    NextKeeps(cfg, s, a);
  }

  lemma NextKeepsExclusive(cfg: Config, s: State, a: Action)
    requires Exclusive(cfg, s) && Clean(s, a)
    ensures Exclusive(cfg, Next(cfg, s, a))
  {
    var t := Next(cfg, s, a);
    forall i | 0 <= i < |t.rows| ensures WithinLimit(cfg, t.rows[i]) { LimitKept(cfg, s, a, i); }
    forall n | 0 <= n < |t.sent| ensures t.sent[n] < |t.rows| { SentKept(cfg, s, a, n); }
    forall k, j, i | Holds(t, k, j, i) ensures Held(t, k, j, i) { HeldKept(cfg, s, a, k, j, i); }
    forall k, j, k', j', i | Holds(t, k, j, i) && Holds(t, k', j', i) ensures k == k' && j == j' {
      HoldersDiffer(cfg, s, a, k, j, k', j', i);
    }
  }

  lemma {:induction false} AlwaysExclusive(cfg: Config, start: Time, acts: seq<Action>)
    requires CleanRun(cfg, Init(start), acts)
    ensures Exclusive(cfg, Run(cfg, Init(start), acts))
  {
    if acts != [] {
      var n := |acts| - 1;
      AlwaysExclusive(cfg, start, acts[..n]);
      NextKeepsExclusive(cfg, Run(cfg, Init(start), acts[..n]), acts[n]);
    }
  }

  // ----- deliveries

  /** The action claims row `i` although it was being processed: its last relay is gone. */
  predicate TakesOver(s: State, a: Action, i: Id) {
    a.Claim? && a.relay !in s.relays && Batch(s.rows, s.now, a.ids) && i in a.ids
    && i < |s.rows| && s.rows[i].status == PROCESSING
  }

  function TakeOvers(cfg: Config, s: State, acts: seq<Action>, i: Id): nat {
    if acts == [] then 0
    else
      var n := |acts| - 1;
      TakeOvers(cfg, s, acts[..n], i) + if TakesOver(Run(cfg, s, acts[..n]), acts[n], i) then 1 else 0
  }

  /** The relay has yet to send the row. */
  predicate Pending(s: State, k: RelayId, j: nat, i: Id) {
    Holds(s, k, j, i) && (j > s.relays[k].pos || s.relays[k].phase == Sending)
  }

  /** One delivery per failed attempt, per takeover, and for the dispatch now going on. */
  ghost predicate Accounted(s: State, i: Id, n: nat) {
    && (i >= |s.rows| ==> Deliveries(s.sent, i) == 0)
    && (i < |s.rows| ==>
          Deliveries(s.sent, i) <= s.rows[i].attempts + n +
            if s.rows[i].status == PUBLISHED || s.rows[i].status == PROCESSING then 1 else 0)
    && (forall k, j :: Pending(s, k, j, i) && i < |s.rows| ==>
          Deliveries(s.sent, i) <= s.rows[i].attempts + n)
  }

  lemma SendAccounted(cfg: Config, s: State, a: Action, i: Id, n: nat)
    requires Exclusive(cfg, s) && Accounted(s, i, n) && a.Send?
    ensures Accounted(Next(cfg, s, a), i, n)
  {
    if Busy(s, a.relay, Sending) {
      CurrentHeld(cfg, s, a.relay, Sending);
      DeliveriesSnoc(s.sent, Current(s, a.relay).id, i);
      assert Pending(s, a.relay, s.relays[a.relay].pos, Current(s, a.relay).id);
      var t := Next(cfg, s, a);
      forall k: RelayId, j: nat | Pending(t, k, j, i) && i < |t.rows|
        ensures Deliveries(t.sent, i) <= t.rows[i].attempts + n
      {
        assert Pending(s, k, j, i) && Held(s, k, j, i);
      }
    }
  }

  lemma ClaimAccounted(cfg: Config, s: State, a: Action, i: Id, n: nat)
    requires Exclusive(cfg, s) && Accounted(s, i, n) && a.Claim?
    ensures Accounted(Next(cfg, s, a), i, n + if TakesOver(s, a, i) then 1 else 0)
  {
    var t := Next(cfg, s, a);
    var m := n + if TakesOver(s, a, i) then 1 else 0;
    forall k: RelayId, j: nat | Pending(t, k, j, i) && i < |t.rows|
      ensures Deliveries(t.sent, i) <= t.rows[i].attempts + m
    {
      HoldsBefore(cfg, s, a, k, j, i);
      if Holds(s, k, j, i) {
        assert Pending(s, k, j, i);
      } else {
        assert i == a.ids[j];
      }
    }
  }

  lemma NextAccounted(cfg: Config, s: State, a: Action, i: Id, n: nat)
    requires Exclusive(cfg, s) && Clean(s, a) && Accounted(s, i, n)
    ensures Accounted(Next(cfg, s, a), i, n + if TakesOver(s, a, i) then 1 else 0)
  {
    var t := Next(cfg, s, a);
    if a.Send? {
      SendAccounted(cfg, s, a, i, n);
    } else if a.Claim? {
      ClaimAccounted(cfg, s, a, i, n);
    } else {
      if a.Insert? {
        NeverSent(s.sent, |s.rows|);
      }
      if a.Mark? && Busy(s, a.relay, Marking) { CurrentHeld(cfg, s, a.relay, Marking); }
      if a.Fail? && Busy(s, a.relay, Failing) { CurrentHeld(cfg, s, a.relay, Failing); }
      forall k: RelayId, j: nat | Pending(t, k, j, i) && i < |t.rows|
        ensures Deliveries(t.sent, i) <= t.rows[i].attempts + n
      {
        HoldsBefore(cfg, s, a, k, j, i);
        assert Pending(s, k, j, i) && Held(s, k, j, i);
      }
    }
  }

  lemma {:induction false} AlwaysAccounted(cfg: Config, start: Time, acts: seq<Action>, i: Id)
    requires CleanRun(cfg, Init(start), acts)
    ensures Accounted(Run(cfg, Init(start), acts), i, TakeOvers(cfg, Init(start), acts, i))
  {
    if acts != [] {
      var n := |acts| - 1;
      AlwaysAccounted(cfg, start, acts[..n], i);
      AlwaysExclusive(cfg, start, acts[..n]);
      NextAccounted(cfg, Run(cfg, Init(start), acts[..n]), acts[n], i, TakeOvers(cfg, Init(start), acts[..n], i));
    }
  }

  /**
   Any number of relays, crashes included, deliver an event at most as often as one relay may try, and
   once more for every time the row was taken over from a relay that was gone.
   */
  lemma BoundedDeliveries(cfg: Config, start: Time, acts: seq<Action>, i: Id)
    requires CleanRun(cfg, Init(start), acts) && i < |Run(cfg, Init(start), acts).rows|
    ensures Deliveries(Run(cfg, Init(start), acts).sent, i) <= Limit(cfg) + TakeOvers(cfg, Init(start), acts, i)
  {
    AlwaysExclusive(cfg, start, acts);
    AlwaysAccounted(cfg, start, acts, i);
    assert WithinLimit(cfg, Run(cfg, Init(start), acts).rows[i]);
  }

  // ----- finality

  /** `t` can follow `s` by clean actions. */
  ghost predicate Leads(cfg: Config, s: State, t: State) {
    exists acts :: CleanRun(cfg, s, acts) && Run(cfg, s, acts) == t
  }

  lemma LeadsSelf(cfg: Config, s: State)
    ensures Leads(cfg, s, s)
  {
    assert CleanRun(cfg, s, []) && Run(cfg, s, []) == s;
  }

  lemma LeadsOn(cfg: Config, s: State, t: State, a: Action)
    requires Leads(cfg, s, t) && Clean(t, a)
    ensures Leads(cfg, s, Next(cfg, t, a))
  {
    var acts :| CleanRun(cfg, s, acts) && Run(cfg, s, acts) == t;
    CleanSnoc(cfg, s, acts, a);
    RunSnoc(cfg, s, acts, a);
  }

  /** Published and failed rows stay as they are in everything that can follow. */
  ghost predicate Settled(cfg: Config, s: State) {
    forall u, i :: Leads(cfg, s, u) && 0 <= i < |s.rows| && Finished(s.rows[i]) ==>
      i < |u.rows| && u.rows[i] == s.rows[i]
  }

  lemma NextKeepsFinished(cfg: Config, s: State, a: Action, i: Id)
    requires Exclusive(cfg, s) && Clean(s, a) && i < |s.rows| && Finished(s.rows[i])
    ensures i < |Next(cfg, s, a).rows| && Next(cfg, s, a).rows[i] == s.rows[i]
  {
    match a
    case Mark(k, ok, applied) => if Busy(s, k, Marking) { CurrentHeld(cfg, s, k, Marking); }
    case Fail(k, ok) => if Busy(s, k, Failing) { CurrentHeld(cfg, s, k, Failing); }
    case _ =>
  }

  lemma {:induction false} RunKeepsFinished(cfg: Config, s: State, acts: seq<Action>, i: Id)
    requires Exclusive(cfg, s) && CleanRun(cfg, s, acts) && i < |s.rows| && Finished(s.rows[i])
    ensures i < |Run(cfg, s, acts).rows| && Run(cfg, s, acts).rows[i] == s.rows[i]
    ensures Exclusive(cfg, Run(cfg, s, acts))
  {
    if acts != [] {
      var n := |acts| - 1;
      RunKeepsFinished(cfg, s, acts[..n], i);
      NextKeepsFinished(cfg, Run(cfg, s, acts[..n]), acts[n], i);
      NextKeepsExclusive(cfg, Run(cfg, s, acts[..n]), acts[n]);
    }
  }

  lemma ExclusiveSettles(cfg: Config, s: State)
    requires Exclusive(cfg, s)
    ensures Settled(cfg, s)
  {
    forall u, i | Leads(cfg, s, u) && 0 <= i < |s.rows| && Finished(s.rows[i])
      ensures i < |u.rows| && u.rows[i] == s.rows[i]
    {
      var acts :| CleanRun(cfg, s, acts) && Run(cfg, s, acts) == u;
      RunKeepsFinished(cfg, s, acts, i);
    }
  }

  lemma {:induction false} LeadsExclusive(cfg: Config, s: State, acts: seq<Action>)
    requires Exclusive(cfg, s) && CleanRun(cfg, s, acts)
    ensures Exclusive(cfg, Run(cfg, s, acts))
  {
    if acts != [] {
      var n := |acts| - 1;
      LeadsExclusive(cfg, s, acts[..n]);
      NextKeepsExclusive(cfg, Run(cfg, s, acts[..n]), acts[n]);
    }
  }

  /** While claims take rows from nobody, publication and failure are final, crashes or not. */
  lemma FinishedIsFinal(cfg: Config, start: Time, s: State)
    requires Leads(cfg, Init(start), s)
    ensures Settled(cfg, s)
  {
    var acts :| CleanRun(cfg, Init(start), acts) && Run(cfg, Init(start), acts) == s;
    AlwaysExclusive(cfg, start, acts);
    ExclusiveSettles(cfg, s);
  }

  /** A relay that can still fail the row it is at, whatever phase it is in. */
  lemma FailHere(cfg: Config, s0: State, s: State, k: RelayId) returns (t: State)
    requires Leads(cfg, s0, s) && k in s.relays && Busy(s, k, s.relays[k].phase)
    ensures Leads(cfg, s0, t)
    ensures t.rows == s.rows[Current(s, k).id := Failed(cfg, s.rows[Current(s, k).id], Current(s, k).attempts)]
    ensures t.relays == Onward(cfg, s.relays, k)
  {
    var u := s;
    if s.relays[k].phase != Failing {
      var a := if s.relays[k].phase == Sending then Send(k, false, false) else Mark(k, false, false);
      LeadsOn(cfg, s0, s, a);
      u := Next(cfg, s, a);
      assert u.rows == s.rows && u.relays == s.relays[k := s.relays[k].(phase := Failing)];
    }
    LeadsOn(cfg, s0, u, Fail(k, true));
    t := Next(cfg, u, Fail(k, true));
    assert u.relays - {k} == s.relays - {k};
  }

  lemma PublishHere(cfg: Config, s0: State, s: State, k: RelayId) returns (t: State)
    requires Leads(cfg, s0, s) && k in s.relays && Busy(s, k, s.relays[k].phase) && s.relays[k].phase != Failing
    ensures Leads(cfg, s0, t)
    ensures t.rows == s.rows[Current(s, k).id := Published(s.rows[Current(s, k).id])]
    ensures t.relays == Onward(cfg, s.relays, k)
  {
    var u := s;
    if s.relays[k].phase == Sending {
      LeadsOn(cfg, s0, s, Send(k, true, true));
      u := Next(cfg, s, Send(k, true, true));
      assert u.relays == s.relays[k := s.relays[k].(phase := Marking)];
    }
    LeadsOn(cfg, s0, u, Mark(k, true, true));
    t := Next(cfg, u, Mark(k, true, true));
    assert u.relays - {k} == s.relays - {k};
  }

  ghost predicate BatchInTable(s: State, k: RelayId) {
    k in s.relays && forall n :: 0 <= n < |s.relays[k].batch| ==> s.relays[k].batch[n].id < |s.rows|
  }

  /** A relay moves on to a later row of its batch; rows other than those on the way stay as they are. */
  lemma {:induction false} Advance(cfg: Config, s0: State, s: State, k: RelayId, j: nat, i: Id) returns (t: State)
    requires Leads(cfg, s0, s) && BatchInTable(s, k) && s.relays[k].pos <= j < |s.relays[k].batch|
    requires forall n :: s.relays[k].pos <= n < j ==> s.relays[k].batch[n].id != i
    ensures Leads(cfg, s0, t) && |t.rows| == |s.rows| && (i < |s.rows| ==> t.rows[i] == s.rows[i])
    ensures k in t.relays && t.relays - {k} == s.relays - {k}
    ensures t.relays[k].pos == j && t.relays[k].batch == s.relays[k].batch
    ensures s.relays[k].phase != Failing ==> t.relays[k].phase != Failing
    decreases j - s.relays[k].pos
  {
    if s.relays[k].pos == j {
      t := s;
    } else {
      var u := FailHere(cfg, s0, s, k);
      assert u.relays - {k} == s.relays - {k};
      t := Advance(cfg, s0, u, k, j, i);
    }
  }

  /** Two relays that both have a row to finish: one publishes it, then the other writes it back. */
  lemma TwoHoldersUndo(cfg: Config, s: State, k: RelayId, j: nat, k': RelayId, j': nat, i: Id)
    returns (t: State, u: State)
    requires BatchInTable(s, k) && BatchInTable(s, k') && k != k' && s.relays[k].phase != Failing
    requires Holds(s, k, j, i) && Holds(s, k', j', i)
    requires forall n :: s.relays[k].pos <= n < j ==> s.relays[k].batch[n].id != i
    requires forall n :: s.relays[k'].pos <= n < j' ==> s.relays[k'].batch[n].id != i
    ensures Leads(cfg, s, t) && Leads(cfg, t, u)
    ensures i < |t.rows| == |u.rows| == |s.rows| && t.rows[i].status == PUBLISHED != u.rows[i].status
  {
    LeadsSelf(cfg, s);
    var s1 := Advance(cfg, s, s, k, j, i);
    assert k' in s1.relays && s1.relays[k'] == s.relays[k'] by { assert k' in s.relays - {k}; }
    t := PublishHere(cfg, s, s1, k);
    assert k' in t.relays && t.relays[k'] == s.relays[k'];
    LeadsSelf(cfg, t);
    var t1 := Advance(cfg, t, t, k', j', i);
    u := FailHere(cfg, t, t1, k');
  }

  /** A takeover of a row somebody holds. */
  lemma TakeoverUndoes(cfg: Config, s: State, k: RelayId, ids: seq<Id>, n: nat, k': RelayId, j': nat)
    returns (t: State, u: State)
    requires Inv(cfg, s) && Exclusive(cfg, s)
    requires k !in s.relays && Batch(s.rows, s.now, ids) && n < |ids| && Holds(s, k', j', ids[n])
    ensures Leads(cfg, Next(cfg, s, Claim(k, ids)), t) && Leads(cfg, t, u)
    ensures ids[n] < |t.rows| == |u.rows| && t.rows[ids[n]].status == PUBLISHED != u.rows[ids[n]].status
    ensures |t.rows| == |s.rows|
  {
    var s1 := Next(cfg, s, Claim(k, ids));
    assert s1.relays == s.relays[k := Relay(Snapshots(s.rows, ids), 0, FirstPhase(cfg))] && |s1.rows| == |s.rows|;
    assert RelayOk(cfg, s, s.relays[k']);
    forall m | s.relays[k'].pos <= m < j' ensures s.relays[k'].batch[m].id != ids[n] {
      assert !Holds(s, k', m, ids[n]);
    }
    t, u := TwoHoldersUndo(cfg, s1, k, n, k', j', ids[n]);
  }

  /** A publication whose write was applied but reported as failed. */
  lemma LostAnswerUndoes(cfg: Config, s: State, k: RelayId)
    requires Busy(s, k, Marking)
    ensures !Settled(cfg, Next(cfg, s, Mark(k, false, true)))
  {
    var t, i := Next(cfg, s, Mark(k, false, true)), Current(s, k).id;
    LeadsSelf(cfg, t);
    LeadsOn(cfg, t, t, Fail(k, true));
    var u := Next(cfg, t, Fail(k, true));
    assert t.rows[i].status == PUBLISHED != u.rows[i].status;
  }

  /**
   Exactly which actions endanger finality. In a state reached by clean actions, take any action that
   has an effect: finished rows are final in everything that can then follow by clean actions if and
   only if it was clean itself, that is, took no row another relay had yet to finish, and reported no
   error for a write that happened.
   */
  lemma FinalIffClean(cfg: Config, start: Time, s: State, a: Action)
    requires Leads(cfg, Init(start), s) && Next(cfg, s, a) != s
    ensures Clean(s, a) <==> forall t :: Leads(cfg, Next(cfg, s, a), t) ==> Settled(cfg, t)
  {
    var acts :| CleanRun(cfg, Init(start), acts) && Run(cfg, Init(start), acts) == s;
    AlwaysExclusive(cfg, start, acts);
    AlwaysInv(cfg, start, acts);
    var s1 := Next(cfg, s, a);
    if Clean(s, a) {
      NextKeepsExclusive(cfg, s, a);
      forall t | Leads(cfg, s1, t) ensures Settled(cfg, t) {
        var more :| CleanRun(cfg, s1, more) && Run(cfg, s1, more) == t;
        LeadsExclusive(cfg, s1, more);
        ExclusiveSettles(cfg, t);
      }
    } else if a.Mark? {
      LostAnswerUndoes(cfg, s, a.relay);
      LeadsSelf(cfg, s1);
    } else {
      var n, k', j' :| 0 <= n < |a.ids| && Holds(s, k', j', a.ids[n]);
      var t, u := TakeoverUndoes(cfg, s, a.relay, a.ids, n, k', j');
      assert !Settled(cfg, t);
    }
  }

  /** A relay that takes longer than two minutes over its row, and a second one that then claims it. */
  function SlowRelay(e: Dispatch.Event): seq<Action> {
    [] + [Insert(e, 0)] + [Claim(0, [0])] + [Tick(PROCESSING_STALE_MS + 1)] + [Claim(1, [0])]
  }

  lemma ClaimSingle(cfg: Config, s: State, k: RelayId)
    requires |s.rows| == 1 && Claimable(s.rows[0], s.now) && k !in s.relays
    ensures Next(cfg, s, Claim(k, [0])) ==
              s.(rows := [s.rows[0].(status := PROCESSING)],
                 relays := s.relays[k := Relay([Claimed(0, s.rows[0].attempts)], 0, FirstPhase(cfg))])
  {
    assert Processing(s.rows, [0]) == [s.rows[0].(status := PROCESSING)];
    assert Snapshots(s.rows, [0]) == [Claimed(0, s.rows[0].attempts)];
  }

  lemma SlowRelayReached(cfg: Config, e: Dispatch.Event) returns (s: State)
    ensures Leads(cfg, Init(0), s) && s.rows == [Row(e, PROCESSING, 0, 0, 0)] && s.now == PROCESSING_STALE_MS + 1
    ensures s.relays == map[0 := Relay([Claimed(0, 0)], 0, FirstPhase(cfg))]
    ensures Run(cfg, Init(0), SlowRelay(e)) == Next(cfg, s, Claim(1, [0]))
  {
    var a0, a1, a2 := Insert(e, 0), Claim(0, [0]), Tick(PROCESSING_STALE_MS + 1);
    var s1 := Next(cfg, Init(0), a0);
    ClaimSingle(cfg, s1, 0);
    var s2 := Next(cfg, s1, a1);
    s := Next(cfg, s2, a2);
    LeadsSelf(cfg, Init(0));
    LeadsOn(cfg, Init(0), Init(0), a0);
    LeadsOn(cfg, Init(0), s1, a1);
    LeadsOn(cfg, Init(0), s2, a2);
    RunSnoc(cfg, Init(0), [], a0);
    RunSnoc(cfg, Init(0), [] + [a0], a1);
    RunSnoc(cfg, Init(0), [] + [a0] + [a1], a2);
    RunSnoc(cfg, Init(0), [] + [a0] + [a1] + [a2], Claim(1, [0]));
  }

  /** This does happen: the second relay publishes the row and the first one writes it back. */
  lemma PublicationUndone(cfg: Config, e: Dispatch.Event)
    ensures exists t, u ::
              && Leads(cfg, Run(cfg, Init(0), SlowRelay(e)), t) && Leads(cfg, t, u)
              && |t.rows| == |u.rows| == 1 && t.rows[0].status == PUBLISHED != u.rows[0].status
  {
    var s := SlowRelayReached(cfg, e);
    var acts :| CleanRun(cfg, Init(0), acts) && Run(cfg, Init(0), acts) == s;
    AlwaysInv(cfg, 0, acts);
    AlwaysExclusive(cfg, 0, acts);
    assert Holds(s, 0, 0, 0);
    var t, u := TakeoverUndoes(cfg, s, 1, [0], 0, 0, 0);
  }
}
