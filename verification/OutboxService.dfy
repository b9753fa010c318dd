/** The relay of one instance: it writes events, drains batches, and is driven by a timer. */
module OutboxRelay {
  import opened Outbox
  import opened OutboxExclusive
  import opened OutboxOrder
  import Dispatch

  // ----- a relay that is alone takes nothing over

  ghost predicate NoTakeOver(cfg: Config, s: State, acts: seq<Action>) {
    forall i :: TakeOvers(cfg, s, acts, i) == 0
  }

  lemma NoTakeOverSnoc(cfg: Config, s: State, acts: seq<Action>, a: Action)
    requires NoTakeOver(cfg, s, acts) && forall i :: !TakesOver(Run(cfg, s, acts), a, i)
    ensures NoTakeOver(cfg, s, acts + [a])
  {
    assert (acts + [a])[..|acts|] == acts;
  }

  // ----- the termination measure

  /** Dispatches a row can still cost. */
  function Left(cfg: Config, r: Row): nat {
    if Finished(r) then 0 else if r.attempts < Limit(cfg) then Limit(cfg) - r.attempts else 1
  }

  function TotalLeft(cfg: Config, rows: seq<Row>): nat {
    if rows == [] then 0 else TotalLeft(cfg, rows[..|rows| - 1]) + Left(cfg, rows[|rows| - 1])
  }

  lemma {:induction false} TotalLeftUpdate(cfg: Config, rows: seq<Row>, i: nat, r: Row)
    requires i < |rows|
    ensures TotalLeft(cfg, rows[i := r]) == TotalLeft(cfg, rows) - Left(cfg, rows[i]) + Left(cfg, r)
  {
    var n := |rows| - 1;
    if i == n {
      assert rows[i := r][..n] == rows[..n];
    } else {
      assert rows[i := r][..n] == rows[..n][i := r];
      TotalLeftUpdate(cfg, rows[..n], i, r);
    }
  }

  /** A claim takes nothing off the measure: the claimed rows were unfinished and still are. */
  lemma {:induction false} TotalLeftClaim(cfg: Config, rows: seq<Row>, rows': seq<Row>)
    requires |rows| == |rows'|
    requires forall i :: 0 <= i < |rows| ==> Left(cfg, rows[i]) == Left(cfg, rows'[i])
    ensures TotalLeft(cfg, rows) == TotalLeft(cfg, rows')
  {
    if rows != [] {
      TotalLeftClaim(cfg, rows[..|rows| - 1], rows'[..|rows| - 1]);
    }
  }

  lemma {:induction false} NoneLeftIffFinished(cfg: Config, rows: seq<Row>)
    ensures TotalLeft(cfg, rows) == 0 <==> forall i :: 0 <= i < |rows| ==> Finished(rows[i])
  {
    if rows != [] {
      var n := |rows| - 1;
      NoneLeftIffFinished(cfg, rows[..n]);
      if forall i :: 0 <= i < n ==> Finished(rows[..n][i]) {
        assert forall i :: 0 <= i < n ==> rows[..n][i] == rows[i];
      } else {
        var i :| 0 <= i < n && !Finished(rows[..n][i]);
        assert !Finished(rows[i]);
      }
    }
  }

  /** The claimed rows from position `k` on are in hand, with the attempts the claim read. */
  ghost predicate InHand(rows: seq<Row>, claimed: seq<Claimed>, k: nat) {
    forall j :: k <= j < |claimed| ==>
      claimed[j].id < |rows| && rows[claimed[j].id].status == PROCESSING
      && rows[claimed[j].id].attempts == claimed[j].attempts
  }

  ghost predicate Distinct(claimed: seq<Claimed>) {
    forall i, j :: 0 <= i < j < |claimed| ==> claimed[i].id != claimed[j].id
  }

  /** Nothing is being processed except what is in hand. */
  ghost predicate OnlyInHand(rows: seq<Row>, claimed: seq<Claimed>, k: nat) {
    forall i :: 0 <= i < |rows| && rows[i].status == PROCESSING ==>
      exists j :: k <= j < |claimed| && claimed[j].id == i
  }

  lemma Marked(rows: seq<Row>, claimed: seq<Claimed>, k: nat, r: Row)
    requires k < |claimed| && InHand(rows, claimed, k) && Distinct(claimed) && OnlyInHand(rows, claimed, k)
    requires r.status != PROCESSING
    ensures InHand(rows[claimed[k].id := r], claimed, k + 1)
    ensures OnlyInHand(rows[claimed[k].id := r], claimed, k + 1)
  {
    var rows' := rows[claimed[k].id := r];
    forall i | 0 <= i < |rows'| && rows'[i].status == PROCESSING
      ensures exists j :: k + 1 <= j < |claimed| && claimed[j].id == i
    {
      var j :| k <= j < |claimed| && claimed[j].id == i;
      assert j != k;
    }
  }

  function Dispatched(cfg: Config, r: Row, attemptsRead: nat, ok: bool): Row {
    if ok then Published(r) else Failed(cfg, r, attemptsRead)
  }

  /** Dispatching a row takes it out of hand and takes something off the measure, sent or not. */
  lemma DispatchedRow(cfg: Config, rows: seq<Row>, claimed: seq<Claimed>, k: nat, ok: bool)
    requires k < |claimed| && InHand(rows, claimed, k) && Distinct(claimed) && OnlyInHand(rows, claimed, k)
    ensures var c := claimed[k];
            var rows' := rows[c.id := Dispatched(cfg, rows[c.id], c.attempts, ok)];
            && InHand(rows', claimed, k + 1) && OnlyInHand(rows', claimed, k + 1)
            && TotalLeft(cfg, rows') < TotalLeft(cfg, rows)
            && (ok ==> rows'[c.id].status == PUBLISHED)
  {
    var c := claimed[k];
    var r := Dispatched(cfg, rows[c.id], c.attempts, ok);
    TotalLeftUpdate(cfg, rows, c.id, r);
    Marked(rows, claimed, k, r);
  }

  lemma ClaimedInHand(rows: seq<Row>, ids: seq<Id>)
    requires forall k :: 0 <= k < |ids| ==> ids[k] < |rows|
    requires forall j, k :: 0 <= j < k < |ids| ==> ids[j] != ids[k]
    requires forall i :: 0 <= i < |rows| ==> rows[i].status != PROCESSING
    ensures var claimed := Snapshots(rows, ids);
            InHand(Processing(rows, ids), claimed, 0) && Distinct(claimed)
            && OnlyInHand(Processing(rows, ids), claimed, 0)
  {
    var claimed := Snapshots(rows, ids);
    forall i | 0 <= i < |rows| && Processing(rows, ids)[i].status == PROCESSING
      ensures exists j :: 0 <= j < |claimed| && claimed[j].id == i
    {
      var j :| 0 <= j < |ids| && ids[j] == i;
      assert claimed[j].id == i;
    }
  }

  /** What claiming the oldest batch of an idle table means. */
  lemma ClaimFacts(cfg: Config, rows: seq<Row>, now: Time)
    requires forall i :: 0 <= i < |rows| ==> rows[i].status != PROCESSING
    ensures var ids := Oldest(rows, now, BATCH_SIZE);
            var claimed, rows' := Snapshots(rows, ids), Processing(rows, ids);
            && InHand(rows', claimed, 0) && Distinct(claimed) && OnlyInHand(rows', claimed, 0)
            && TotalLeft(cfg, rows') == TotalLeft(cfg, rows) && (ids == [] ==> rows' == rows)
  {
    var ids := Oldest(rows, now, BATCH_SIZE);
    OldestIsBatch(rows, now, BATCH_SIZE);
    ClaimedInHand(rows, ids);
    TotalLeftClaim(cfg, rows, Processing(rows, ids));
  }

  /** The claim of a lone relay takes the oldest rows, none of them from anybody else. */
  lemma LoneClaim(cfg: Config, s: State, ids: seq<Id>)
    requires s.relays == map[] && ids != [] && ids == Oldest(s.rows, s.now, BATCH_SIZE)
    requires forall i :: 0 <= i < |s.rows| ==> s.rows[i].status != PROCESSING
    ensures Clean(s, Claim(0, ids)) && forall i :: !TakesOver(s, Claim(0, ids), i)
    ensures Next(cfg, s, Claim(0, ids)) ==
              s.(rows := Processing(s.rows, ids), relays := LoneNext(cfg, Snapshots(s.rows, ids), 0))
  {
    OldestIsBatch(s.rows, s.now, BATCH_SIZE);
  }

  /** What the other actions of a lone relay do. */
  lemma LoneSend(cfg: Config, s: State, claimed: seq<Claimed>, k: nat, ok: bool, arrived: bool)
    requires k < |claimed| && claimed[k].id < |s.rows| && s.relays == map[0 := Relay(claimed, k, Sending)]
    ensures Next(cfg, s, Send(0, ok, arrived)) ==
              s.(sent := if ok || arrived then s.sent + [claimed[k].id] else s.sent,
                 relays := map[0 := Relay(claimed, k, if ok then Marking else Failing)])
  {
  }

  function LoneNext(cfg: Config, claimed: seq<Claimed>, k: nat): map<RelayId, Relay> {
    if k < |claimed| then map[0 := Relay(claimed, k, FirstPhase(cfg))] else map[]
  }

  lemma LoneMark(cfg: Config, s: State, claimed: seq<Claimed>, k: nat)
    requires k < |claimed| && claimed[k].id < |s.rows| && s.relays == map[0 := Relay(claimed, k, Marking)]
    ensures Next(cfg, s, Mark(0, true, false)) ==
              s.(rows := s.rows[claimed[k].id := Published(s.rows[claimed[k].id])],
                 relays := LoneNext(cfg, claimed, k + 1))
  {
  }

  lemma LoneFail(cfg: Config, s: State, claimed: seq<Claimed>, k: nat)
    requires k < |claimed| && claimed[k].id < |s.rows| && s.relays == map[0 := Relay(claimed, k, Failing)]
    ensures Next(cfg, s, Fail(0, true)) ==
              s.(rows := s.rows[claimed[k].id := Failed(cfg, s.rows[claimed[k].id], claimed[k].attempts)],
                 relays := LoneNext(cfg, claimed, k + 1))
  {
  }

  predicate Others(before: seq<Row>, after: seq<Row>, claimed: seq<Claimed>) {
    |before| == |after|
    && forall i :: 0 <= i < |after| && (forall j :: 0 <= j < |claimed| ==> claimed[j].id != i) ==> after[i] == before[i]
  }

  lemma OthersNone(rows: seq<Row>, claimed: seq<Claimed>)
    ensures Others(rows, rows, claimed)
  {
  }

  lemma OthersNext(before: seq<Row>, now: seq<Row>, after: seq<Row>, claimed: seq<Claimed>, k: nat)
    requires k < |claimed| && Others(before, now, claimed) && claimed[k].id < |now| == |after|
    requires after == now[claimed[k].id := after[claimed[k].id]]
    ensures Others(before, after, claimed)
  {
  }

  /** The ids of claimed rows. */
  function Names(claimed: seq<Claimed>): (ids: seq<Id>)
    ensures |ids| == |claimed| && forall j :: 0 <= j < |ids| ==> ids[j] == claimed[j].id
  {
    seq(|claimed|, j requires 0 <= j < |claimed| => claimed[j].id)
  }

  lemma BatchMeans(before: seq<Row>, after: seq<Row>, ids: seq<Id>, claimed: seq<Claimed>)
    requires |before| == |after| && forall k :: 0 <= k < |ids| ==> ids[k] < |before|
    requires claimed == Snapshots(before, ids) && Others(Processing(before, ids), after, claimed)
    ensures forall i :: 0 <= i < |after| && i !in ids ==> after[i] == before[i]
    ensures Names(claimed) == ids
  {
    forall i | 0 <= i < |after| && i !in ids ensures after[i] == before[i] {
      assert forall j :: 0 <= j < |claimed| ==> claimed[j].id == ids[j];
    }
  }

  /** A term to name when a guarded definition is to be looked into. */
  ghost predicate Look(n: nat) {
    true
  }

  /** A row after its dispatch: published, or one attempt more, and given up if that was the last. */
  predicate Handled(cfg: Config, before: Row, after: Row, ok: bool) {
    && after.event == before.event && after.createdAt == before.createdAt && after.updatedAt == before.updatedAt
    && if ok then after.status == PUBLISHED && after.attempts == before.attempts
       else
         && after.attempts == before.attempts + 1
         && after.status == if before.attempts + 1 >= cfg.maxAttempts then FAILED else PENDING
  }

  /** The batch of a relay that is alone: waiting rows, each once, by age, and a hundred if any is left behind. */
  predicate TakesOldest(rows: seq<Row>, ids: seq<Id>) {
    && |ids| <= 100
    && (forall k :: 0 <= k < |ids| ==> ids[k] < |rows| && rows[ids[k]].status == PENDING)
    && (forall j, k :: 0 <= j < k < |ids| ==> ids[j] != ids[k] && rows[ids[j]].createdAt <= rows[ids[k]].createdAt)
    && (forall i :: 0 <= i < |rows| && rows[i].status == PENDING && i !in ids ==>
          |ids| == 100 && forall k :: 0 <= k < |ids| ==> rows[ids[k]].createdAt <= rows[i].createdAt)
  }

  lemma IdleBatch(rows: seq<Row>, now: Time)
    requires forall i :: 0 <= i < |rows| ==> rows[i].status != PROCESSING
    ensures TakesOldest(rows, Oldest(rows, now, BATCH_SIZE))
  {
    OldestIsBatch(rows, now, BATCH_SIZE);
  }

  class OutboxService {
    const cfg: Config
    const answers: nat -> bool    // whether the n-th send succeeds
    const arrives: nat -> bool    // whether a failing send arrives all the same
    var rows: seq<Row>
    var sent: seq<Id>
    var sends: nat
    var now: Time
    ghost const start: Time
    ghost var relays: map<RelayId, Relay>
    ghost var history: seq<Action>

    ghost function View(): State
      reads this
    {
      State(rows, sent, now, relays)
    }

    /** The tables are what the protocol reaches by the recorded actions, none of which took a row over. */
    ghost predicate Valid()
      reads this
    {
      && View() == Run(cfg, Init(start), history) && CleanRun(cfg, Init(start), history)
      && NoTakeOver(cfg, Init(start), history)
    }

    ghost predicate Reliable() {
      forall n :: answers(n)
    }

    ghost predicate Idle()
      reads this
    {
      relays == map[] && forall i :: 0 <= i < |rows| ==> rows[i].status != PROCESSING
    }

    constructor (cfg: Config, answers: nat -> bool, arrives: nat -> bool, now: Time)
      ensures Valid() && Idle() && rows == [] && sent == [] && sends == 0 && this.now == now
      ensures this.cfg == cfg && this.answers == answers && this.arrives == arrives
    {
      this.cfg, this.answers, this.arrives := cfg, answers, arrives;
      rows, sent, sends, this.now, start := [], [], 0, now, now;
      relays, history := map[], [];
    }

    ghost method Record(a: Action, before: State)
      requires before == Run(cfg, Init(start), history) && CleanRun(cfg, Init(start), history)
      requires NoTakeOver(cfg, Init(start), history) && forall i :: !TakesOver(before, a, i)
      requires View() == Next(cfg, before, a) && Clean(before, a)
      modifies this`history
      ensures Valid() && history == old(history) + [a]
    {
      RunSnoc(cfg, Init(start), history, a);
      CleanSnoc(cfg, Init(start), history, a);
      NoTakeOverSnoc(cfg, Init(start), history, a);
      history := history + [a];
    }

    /** Nothing is sent more often than its attempts allow, whatever the broker answers. */
    lemma SentWithinLimit(i: Id)
      requires Valid() && i < |rows|
      ensures Deliveries(sent, i) <= Limit(cfg)
    {
      BoundedDeliveries(cfg, start, history, i);
      assert TakeOvers(cfg, Init(start), history, i) == 0;
    }

    /** Persist an event, inside the transaction of the change it describes. */
    method Write(event: Dispatch.Event, began: Time)
      requires Valid() && Idle() && began <= now
      modifies this
      ensures Valid() && Idle()
      ensures rows == old(rows) + [Row(event, PENDING, 0, began, began)] && sent == old(sent)
      ensures TotalLeft(cfg, rows) == old(TotalLeft(cfg, rows)) + Limit(cfg)
    {
      ghost var before := View();
      rows := rows + [Row(event, PENDING, 0, began, began)];
      assert rows[..|rows| - 1] == old(rows);
      Record(Insert(event, began), before);
    }

    /** Whether the dispatch that makes the `n`-th send works; without a broker nothing is sent. */
    predicate Works(n: nat) {
      !cfg.broker || answers(n)
    }

    /** How many sends so many dispatches take. */
    function Sends(dispatches: nat): nat {
      if cfg.broker then dispatches else 0
    }

    /** What the broker takes of these rows, the first of them being the `n`-th send. */
    function Arriving(ids: seq<Id>, n: nat): seq<Id> {
      if ids == [] || !cfg.broker then []
      else
        var last := |ids| - 1;
        Arriving(ids[..last], n) + if answers(n + last) || arrives(n + last) then [ids[last]] else []
    }

    method SendRow(ghost claimed: seq<Claimed>, ghost k: nat, c: Claimed) returns (ok: bool)
      requires Valid() && k < |claimed| && claimed[k] == c && c.id < |rows|
      requires relays == LoneNext(cfg, claimed, k)
      modifies this`sent, this`sends, this`relays, this`history
      ensures Valid() && relays == map[0 := Relay(claimed, k, if ok then Marking else Failing)]
      ensures ok <==> Works(old(sends))
      ensures sends == old(sends) + Sends(1) && sent == old(sent) + Arriving([c.id], old(sends))
    {
      ok := true;
      if cfg.broker {
        ghost var before := View();
        ok := answers(sends);
        var arrived := arrives(sends);
        sends := sends + 1;
        if ok || arrived {
          sent := sent + [c.id];
        }
        relays := map[0 := Relay(claimed, k, if ok then Marking else Failing)];
        LoneSend(cfg, before, claimed, k, ok, arrived);
        Record(Send(0, ok, arrived), before);
      }
    }

    /** The first `k` claimed rows have been dispatched, the others are as they were. */
    predicate HandledFirst(before: seq<Row>, after: seq<Row>, claimed: seq<Claimed>, k: nat, n: nat) {
      && |before| == |after| && k <= |claimed|
      && (forall j :: 0 <= j < |claimed| ==> claimed[j].id < |after|)
      && (forall j :: 0 <= j < k ==>
            Handled(cfg, before[claimed[j].id], after[claimed[j].id], Works(n + Sends(j))))
      && (forall j :: k <= j < |claimed| ==> after[claimed[j].id] == before[claimed[j].id])
    }

    /** The same, guarded, so that only proofs that ask for it look into it. */
    ghost predicate HandledSoFar(before: seq<Row>, after: seq<Row>, claimed: seq<Claimed>, k: nat, n: nat) {
      forall guard: nat :: Look(guard) ==> HandledFirst(before, after, claimed, k, n)
    }

    lemma NoneHandled(rows: seq<Row>, claimed: seq<Claimed>, n: nat)
      requires forall j :: 0 <= j < |claimed| ==> claimed[j].id < |rows|
      ensures HandledSoFar(rows, rows, claimed, 0, n)
    {
    }

    lemma HandledNext(
      before: seq<Row>, now: seq<Row>, after: seq<Row>, claimed: seq<Claimed>, k: nat, n: nat)
      requires k < |claimed| && HandledSoFar(before, now, claimed, k, n) && Distinct(claimed)
      requires claimed[k].id < |now| == |after| && after == now[claimed[k].id := after[claimed[k].id]]
      requires Handled(cfg, now[claimed[k].id], after[claimed[k].id], Works(n + Sends(k)))
      ensures HandledSoFar(before, after, claimed, k + 1, n)
    {
      assert Look(0);
      forall j | 0 <= j < |claimed| && j != k ensures after[claimed[j].id] == now[claimed[j].id] {
        assert claimed[j].id != claimed[k].id;
      }
    }

    /** Each row of the batch was dispatched, the first of them with the `n`-th send. */
    predicate AllHandled(before: seq<Row>, after: seq<Row>, ids: seq<Id>, n: nat) {
      |before| == |after| &&
      forall k :: 0 <= k < |ids| ==>
        ids[k] < |before| && Handled(cfg, before[ids[k]], after[ids[k]], Works(n + Sends(k)))
    }

    lemma BatchHandled(before: seq<Row>, after: seq<Row>, ids: seq<Id>, claimed: seq<Claimed>, n: nat)
      requires forall k :: 0 <= k < |ids| ==> ids[k] < |before|
      requires claimed == Snapshots(before, ids)
      requires HandledSoFar(Processing(before, ids), after, claimed, |claimed|, n)
      ensures AllHandled(before, after, ids, n)
    {
      assert Look(0);
      forall k | 0 <= k < |ids|
        ensures ids[k] < |before| && Handled(cfg, before[ids[k]], after[ids[k]], Works(n + Sends(k)))
      {
        assert claimed[k].id == ids[k];
        var p := Processing(before, ids)[ids[k]];
        assert Handled(cfg, p, after[ids[k]], Works(n + Sends(k)));
        assert p == before[ids[k]].(status := PROCESSING);
      }
    }

    lemma OneMoreArriving(claimed: seq<Claimed>, k: nat, n: nat, sofar: seq<Id>)
      requires k < |claimed|
      ensures sofar + Arriving(Names(claimed[..k + 1]), n)
           == sofar + Arriving(Names(claimed[..k]), n) + Arriving([claimed[k].id], n + Sends(k))
    {
      var a, b := Arriving(Names(claimed[..k]), n), Arriving([claimed[k].id], n + Sends(k));
      var ids := Names(claimed[..k + 1]);
      assert |ids| == k + 1 && ids[k] == claimed[k].id && ids[..k] == Names(claimed[..k]);
      assert [claimed[k].id][..0] == [];
      if cfg.broker {
        var last := if answers(n + k) || arrives(n + k) then [ids[k]] else [];
        assert Arriving(ids, n) == a + last;
        assert Arriving([ids[k]][..0], n + k) == [] && b == [] + last;
      }
      assert Arriving(Names(claimed[..k + 1]), n) == a + b;
      assert sofar + (a + b) == sofar + a + b;
    }

    /** Send one claimed row and mark it; a failing send costs it an attempt. */
    method Dispatch(ghost claimed: seq<Claimed>, ghost k: nat, c: Claimed)
      requires Valid() && k < |claimed| && claimed[k] == c && relays == LoneNext(cfg, claimed, k)
      requires InHand(rows, claimed, k) && Distinct(claimed) && OnlyInHand(rows, claimed, k)
      modifies this
      ensures Valid() && now == old(now) && relays == LoneNext(cfg, claimed, k + 1)
      ensures InHand(rows, claimed, k + 1) && OnlyInHand(rows, claimed, k + 1)
      ensures |rows| == |old(rows)| && c.id < |rows| && rows == old(rows)[c.id := rows[c.id]]
      ensures Handled(cfg, old(rows)[c.id], rows[c.id], Works(old(sends)))
      ensures sends == old(sends) + Sends(1) && sent == old(sent) + Arriving([c.id], old(sends))
      ensures TotalLeft(cfg, rows) < old(TotalLeft(cfg, rows))
    {
      var ok := SendRow(claimed, k, c);
      DispatchedRow(cfg, rows, claimed, k, ok);
      MarkRow(claimed, k, c, ok);
    }

    method MarkRow(ghost claimed: seq<Claimed>, ghost k: nat, c: Claimed, ok: bool)
      requires Valid() && k < |claimed| && claimed[k] == c && c.id < |rows|
      requires relays == map[0 := Relay(claimed, k, if ok then Marking else Failing)]
      modifies this`rows, this`relays, this`history
      ensures Valid() && relays == LoneNext(cfg, claimed, k + 1)
      ensures rows == old(rows)[c.id := Dispatched(cfg, old(rows)[c.id], c.attempts, ok)]
    {
      ghost var before := View();
      if ok {
        rows := rows[c.id := rows[c.id].(status := PUBLISHED)];
        LoneMark(cfg, before, claimed, k);
      } else {
        var attempts := c.attempts + 1;
        var dead := attempts >= cfg.maxAttempts;
        rows := rows[c.id := rows[c.id].(attempts := attempts, status := if dead then FAILED else PENDING)];
        LoneFail(cfg, before, claimed, k);
      }
      relays := LoneNext(cfg, claimed, k + 1);
      Record(if ok then Mark(0, true, false) else Fail(0, true), before);
    }

    /** One turn of the loop over a claimed batch; `first` is the number of its first send. */
    method DispatchNext(
      claimed: seq<Claimed>, k: nat, ghost before: seq<Row>, ghost first: nat, ghost sentBefore: seq<Id>)
      requires Valid() && k < |claimed| && relays == LoneNext(cfg, claimed, k)
      requires InHand(rows, claimed, k) && Distinct(claimed) && OnlyInHand(rows, claimed, k)
      requires HandledSoFar(before, rows, claimed, k, first) && Others(before, rows, claimed)
      requires sends == first + Sends(k) && sent == sentBefore + Arriving(Names(claimed[..k]), first)
      modifies this
      ensures Valid() && now == old(now) && |rows| == |old(rows)| && relays == LoneNext(cfg, claimed, k + 1)
      ensures InHand(rows, claimed, k + 1) && OnlyInHand(rows, claimed, k + 1)
      ensures HandledSoFar(before, rows, claimed, k + 1, first) && Others(before, rows, claimed)
      ensures sends == first + Sends(k + 1) && sent == sentBefore + Arriving(Names(claimed[..k + 1]), first)
      ensures TotalLeft(cfg, rows) < old(TotalLeft(cfg, rows))
    {
      Dispatch(claimed, k, claimed[k]);
      HandledNext(before, old(rows), rows, claimed, k, first);
      OthersNext(before, old(rows), rows, claimed, k);
      OneMoreArriving(claimed, k, first, sentBefore);
    }

    /** The loop over a claimed batch. */
    method DispatchAll(claimed: seq<Claimed>)
      requires Valid() && relays == LoneNext(cfg, claimed, 0)
      requires InHand(rows, claimed, 0) && Distinct(claimed) && OnlyInHand(rows, claimed, 0)
      modifies this
      ensures Valid() && Idle() && now == old(now) && |rows| == |old(rows)|
      ensures TotalLeft(cfg, rows) + |claimed| <= old(TotalLeft(cfg, rows))
      ensures Others(old(rows), rows, claimed) && HandledSoFar(old(rows), rows, claimed, |claimed|, old(sends))
      ensures sends == old(sends) + Sends(|claimed|)
      ensures sent == old(sent) + Arriving(Names(claimed), old(sends))
    {
      NoneHandled(rows, claimed, sends);
      OthersNone(rows, claimed);
      assert Names(claimed[..0]) == [];
      for k := 0 to |claimed|
        invariant Valid() && now == old(now) && |rows| == |old(rows)| && relays == LoneNext(cfg, claimed, k)
        invariant InHand(rows, claimed, k) && OnlyInHand(rows, claimed, k)
        invariant TotalLeft(cfg, rows) + k <= old(TotalLeft(cfg, rows))
        invariant Others(old(rows), rows, claimed) && HandledSoFar(old(rows), rows, claimed, k, old(sends))
        invariant sends == old(sends) + Sends(k)
        invariant sent == old(sent) + Arriving(Names(claimed[..k]), old(sends))
      {
        DispatchNext(claimed, k, old(rows), old(sends), old(sent));
      }
      assert claimed[..|claimed|] == claimed;
    }

    method ClaimBatch() returns (claimed: seq<Claimed>)
      requires Valid() && Idle()
      modifies this
      ensures Valid() && now == old(now) && |rows| == |old(rows)| && sends == old(sends) && sent == old(sent)
      ensures claimed == Snapshots(old(rows), Oldest(old(rows), now, BATCH_SIZE))
      ensures relays == LoneNext(cfg, claimed, 0)
      ensures InHand(rows, claimed, 0) && Distinct(claimed) && OnlyInHand(rows, claimed, 0)
      ensures rows == Processing(old(rows), Oldest(old(rows), now, BATCH_SIZE))
      ensures TotalLeft(cfg, rows) == old(TotalLeft(cfg, rows))
    {
      var ids := Oldest(rows, now, BATCH_SIZE);
      claimed := Snapshots(rows, ids);
      ClaimFacts(cfg, rows, now);
      if ids == [] {
        return;
      }
      ghost var before := View();
      rows := Processing(rows, ids);
      relays := LoneNext(cfg, claimed, 0);
      LoneClaim(cfg, before, ids);
      Record(Claim(0, ids), before);
    }

    /**
     Claim the oldest batch and dispatch it row by row: each is published if its send works, and costs an attempt
     otherwise. Every non-empty batch uses up some of what is left.
     */
    method RelayOnce() returns (dispatched: nat, ghost ids: seq<Id>)
      requires Valid() && Idle()
      modifies this
      ensures Valid() && Idle() && now == old(now) && |rows| == |old(rows)|
      ensures TakesOldest(old(rows), ids) && dispatched == |ids|
      ensures forall i :: 0 <= i < |rows| && i !in ids ==> rows[i] == old(rows)[i]
      ensures AllHandled(old(rows), rows, ids, old(sends))
      ensures sends == old(sends) + Sends(|ids|) && sent == old(sent) + Arriving(ids, old(sends))
      ensures TotalLeft(cfg, rows) + dispatched <= old(TotalLeft(cfg, rows))
    {
      IdleBatch(rows, now);
      ids := Oldest(rows, now, BATCH_SIZE);
      var claimed := ClaimBatch();
      dispatched := |claimed|;
      DispatchAll(claimed);
      BatchMeans(old(rows), rows, ids, claimed);
      BatchHandled(old(rows), rows, ids, claimed, old(sends));
    }
  }

  class OutboxRelayWorker {
    const outbox: OutboxService
    var running: bool

    constructor (outbox: OutboxService)
      ensures this.outbox == outbox && !running
    {
      this.outbox, running := outbox, false;
    }

    /** One timer tick: drain full batches; a tick that finds the previous one at work does nothing. */
    method Relay()
      requires outbox.Valid() && outbox.Idle()
      modifies this, outbox
      ensures outbox.Valid() && outbox.Idle() && running == old(running)
      ensures old(running) ==> outbox.rows == old(outbox.rows) && outbox.sent == old(outbox.sent)
      ensures |outbox.rows| == |old(outbox.rows)|
      ensures TotalLeft(outbox.cfg, outbox.rows) <= old(TotalLeft(outbox.cfg, outbox.rows))
      ensures !running && old(TotalLeft(outbox.cfg, outbox.rows)) > 0 ==>
                TotalLeft(outbox.cfg, outbox.rows) < old(TotalLeft(outbox.cfg, outbox.rows))
      ensures !running && outbox.Reliable() ==> TotalLeft(outbox.cfg, outbox.rows) == 0
    {
      if running {
        return;
      }
      running := true;
      var dispatched := Pass();
      while dispatched >= BATCH_SIZE
        invariant outbox.Valid() && outbox.Idle() && |outbox.rows| == |old(outbox.rows)| && running
        invariant TotalLeft(outbox.cfg, outbox.rows) <= old(TotalLeft(outbox.cfg, outbox.rows))
        invariant old(TotalLeft(outbox.cfg, outbox.rows)) > 0 ==>
                    TotalLeft(outbox.cfg, outbox.rows) < old(TotalLeft(outbox.cfg, outbox.rows))
        invariant dispatched < BATCH_SIZE && outbox.Reliable() ==> TotalLeft(outbox.cfg, outbox.rows) == 0
        decreases TotalLeft(outbox.cfg, outbox.rows), dispatched >= BATCH_SIZE
      {
        dispatched := Pass();
      }
      running := false;
    }

    /** One `relayOnce`, under the flag that keeps other ticks out, with what it means for the whole table. */
    method Pass() returns (dispatched: nat)
      requires outbox.Valid() && outbox.Idle() && running
      modifies outbox
      ensures outbox.Valid() && outbox.Idle() && |outbox.rows| == |old(outbox.rows)|
      ensures TotalLeft(outbox.cfg, outbox.rows) + dispatched <= old(TotalLeft(outbox.cfg, outbox.rows))
      ensures old(TotalLeft(outbox.cfg, outbox.rows)) > 0 ==> dispatched > 0
      ensures dispatched < BATCH_SIZE && outbox.Reliable() ==> TotalLeft(outbox.cfg, outbox.rows) == 0
    {
      ghost var rows, sends, ids := outbox.rows, outbox.sends, [];
      NoneLeftIffFinished(outbox.cfg, rows);
      dispatched, ids := outbox.RelayOnce();
      NoneLeftIffFinished(outbox.cfg, outbox.rows);
      forall i | dispatched < BATCH_SIZE && outbox.Reliable() && 0 <= i < |rows| ensures Finished(outbox.rows[i]) {
        if i in ids {
          var k :| 0 <= k < |ids| && ids[k] == i;
          assert outbox.Works(sends + outbox.Sends(k));
        }
      }
    }

    /** Whatever the broker answers, enough ticks finish every row, and none is sent more often than allowed. */
    method Ticks(n: nat)
      requires outbox.Valid() && outbox.Idle() && !running
      modifies this, outbox
      ensures outbox.Valid() && outbox.Idle() && !running && |outbox.rows| == |old(outbox.rows)|
      ensures n >= old(TotalLeft(outbox.cfg, outbox.rows)) ==>
                forall i :: 0 <= i < |outbox.rows| ==> Finished(outbox.rows[i])
      ensures forall i :: 0 <= i < |outbox.rows| ==> Deliveries(outbox.sent, i) <= Limit(outbox.cfg)
    {
      for k := 0 to n
        invariant outbox.Valid() && outbox.Idle() && !running && |outbox.rows| == |old(outbox.rows)|
        invariant TotalLeft(outbox.cfg, outbox.rows) == 0
               || TotalLeft(outbox.cfg, outbox.rows) + k <= old(TotalLeft(outbox.cfg, outbox.rows))
      {
        Relay();
      }
      NoneLeftIffFinished(outbox.cfg, outbox.rows);
      forall i | 0 <= i < |outbox.rows| ensures Deliveries(outbox.sent, i) <= Limit(outbox.cfg) {
        outbox.SentWithinLimit(i);
      }
    }
  }
}
