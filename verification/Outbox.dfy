/**
 The outbox relay as a state machine: any number of relays claim batches, send, and mark rows, while
 rows are inserted, sends and status writes fail, and relays crash at any point.
 */
module Outbox {
  import Dispatch

  type Id = nat       // rows are numbered in the order in which their transactions committed
  type RelayId = nat
  type Time = int     // milliseconds

  const BATCH_SIZE := 100
  const PROCESSING_STALE_MS := 120000

  datatype RowStatus = PENDING | PROCESSING | PUBLISHED | FAILED

  /** `createdAt` is the time at which the transaction that wrote the row began. */
  datatype Row = Row(
    event: Dispatch.Event, status: RowStatus, attempts: nat, createdAt: Time, updatedAt: Time)

  datatype Config = Config(broker: bool, maxAttempts: int)

  /** A claimed row as `relayOnce` holds it: the attempts are those read when it was claimed. */
  datatype Claimed = Claimed(id: Id, attempts: nat)

  datatype Phase = Sending | Marking | Failing

  /** A relay in the middle of its batch, about to send or to mark row `batch[pos]`. */
  datatype Relay = Relay(batch: seq<Claimed>, pos: nat, phase: Phase)

  /** `sent` lists the messages the broker took, in order. */
  datatype State = State(rows: seq<Row>, sent: seq<Id>, now: Time, relays: map<RelayId, Relay>)

  datatype Action =
    | Insert(event: Dispatch.Event, began: Time)       // the transaction commits now
    | Tick(ms: nat)
    | Claim(relay: RelayId, ids: seq<Id>)
    | Send(relay: RelayId, ok: bool, delivered: bool)  // a send that reports an error may have arrived
    | Mark(relay: RelayId, ok: bool, applied: bool)    // so may a write that reports an error
    | Fail(relay: RelayId, ok: bool)
    | Crash(relay: RelayId)

  predicate Finished(r: Row) {
    r.status == PUBLISHED || r.status == FAILED
  }

  predicate Claimable(r: Row, now: Time) {
    || r.status == PENDING
    || (r.status == PROCESSING && r.updatedAt < now - PROCESSING_STALE_MS)
  }

  /**
   A batch the claiming query may return: at most a hundred eligible rows, by creation time. Which of
   the eligible rows is left open, because rows locked by another claim are skipped; so is the order
   of rows with the same creation time.
   */
  predicate Batch(rows: seq<Row>, now: Time, ids: seq<Id>) {
    && |ids| <= BATCH_SIZE
    && (forall k :: 0 <= k < |ids| ==> ids[k] < |rows| && Claimable(rows[ids[k]], now))
    && (forall j, k :: 0 <= j < k < |ids| ==> ids[j] != ids[k] && rows[ids[j]].createdAt <= rows[ids[k]].createdAt)
  }

  /** What the claim writes: the status, and nothing else (the update time stays as it is). */
  function Processing(rows: seq<Row>, ids: seq<Id>): (r: seq<Row>)
    ensures |r| == |rows|
  {
    seq(|rows|, i requires 0 <= i < |rows| => if i in ids then rows[i].(status := PROCESSING) else rows[i])
  }

  function Snapshots(rows: seq<Row>, ids: seq<Id>): (c: seq<Claimed>)
    requires forall k :: 0 <= k < |ids| ==> ids[k] < |rows|
    ensures |c| == |ids|
  {
    seq(|ids|, k requires 0 <= k < |ids| => Claimed(ids[k], rows[ids[k]].attempts))
  }

  function FirstPhase(cfg: Config): Phase {
    if cfg.broker then Sending else Marking
  }

  /** On to the next row of the batch, or done. */
  function Onward(cfg: Config, relays: map<RelayId, Relay>, k: RelayId): map<RelayId, Relay>
    requires k in relays
  {
    var r := relays[k];
    if r.pos + 1 < |r.batch| then relays[k := Relay(r.batch, r.pos + 1, FirstPhase(cfg))] else relays - {k}
  }

  function Published(r: Row): Row {
    r.(status := PUBLISHED)
  }

  /** A failed dispatch counts one attempt more than the claimed copy of the row had. */
  function Failed(cfg: Config, r: Row, attemptsRead: nat): Row {
    var attempts := attemptsRead + 1;
    r.(attempts := attempts, status := if attempts >= cfg.maxAttempts then FAILED else PENDING)
  }

  predicate Busy(s: State, k: RelayId, phase: Phase) {
    && k in s.relays && s.relays[k].phase == phase
    && s.relays[k].pos < |s.relays[k].batch| && s.relays[k].batch[s.relays[k].pos].id < |s.rows|
  }

  function Current(s: State, k: RelayId): Claimed
    requires k in s.relays && s.relays[k].pos < |s.relays[k].batch|
  {
    s.relays[k].batch[s.relays[k].pos]
  }

  function InPhase(s: State, k: RelayId, phase: Phase): map<RelayId, Relay>
    requires k in s.relays
  {
    s.relays[k := s.relays[k].(phase := phase)]
  }

  function Next(cfg: Config, s: State, a: Action): State {
    match a
    case Insert(e, began) =>
      if began > s.now then s else s.(rows := s.rows + [Row(e, PENDING, 0, began, began)])
    case Tick(ms) => s.(now := s.now + ms)
    case Claim(k, ids) =>
      if k in s.relays || ids == [] || !Batch(s.rows, s.now, ids) then s
      else s.(rows := Processing(s.rows, ids),
              relays := s.relays[k := Relay(Snapshots(s.rows, ids), 0, FirstPhase(cfg))])
    case Send(k, ok, delivered) =>
      if !Busy(s, k, Sending) then s
      else s.(sent := if ok || delivered then s.sent + [Current(s, k).id] else s.sent,
              relays := InPhase(s, k, if ok then Marking else Failing))
    case Mark(k, ok, applied) =>
      if !Busy(s, k, Marking) then s
      else
        var id := Current(s, k).id;
        s.(rows := if ok || applied then s.rows[id := Published(s.rows[id])] else s.rows,
           relays := if ok then Onward(cfg, s.relays, k) else InPhase(s, k, Failing))
    case Fail(k, ok) =>
      if !Busy(s, k, Failing) then s
      else
        var c := Current(s, k);
        s.(rows := if ok then s.rows[c.id := Failed(cfg, s.rows[c.id], c.attempts)] else s.rows,
           relays := Onward(cfg, s.relays, k))
    case Crash(k) => s.(relays := s.relays - {k})
  }

  function Init(now: Time): State {
    State([], [], now, map[])
  }

  function Run(cfg: Config, s: State, acts: seq<Action>): State {
    if acts == [] then s else Next(cfg, Run(cfg, s, acts[..|acts| - 1]), acts[|acts| - 1])
  }

  lemma RunSnoc(cfg: Config, s: State, acts: seq<Action>, a: Action)
    ensures Run(cfg, s, acts + [a]) == Next(cfg, Run(cfg, s, acts), a)
  {
    assert (acts + [a])[..|acts|] == acts;
  }

  lemma {:induction false} RunConcat(cfg: Config, s: State, a: seq<Action>, b: seq<Action>)
    ensures Run(cfg, s, a + b) == Run(cfg, Run(cfg, s, a), b)
  {
    if b == [] {
      assert a + b == a;
    } else {
      var n := |b| - 1;
      assert (a + b)[..|a| + n] == a + b[..n];
      RunConcat(cfg, s, a, b[..n]);
    }
  }

  // ----- safety over every interleaving

  predicate RowOk(cfg: Config, s: State, i: Id)
    requires i < |s.rows|
  {
    var r := s.rows[i];
    && (cfg.broker && r.status == PUBLISHED ==> i in s.sent)
    && (r.status == FAILED ==> r.attempts >= cfg.maxAttempts && r.attempts > 0)
    && r.updatedAt == r.createdAt <= s.now
  }

  predicate RelayOk(cfg: Config, s: State, r: Relay) {
    && r.pos < |r.batch|
    && (forall k :: 0 <= k < |r.batch| ==> r.batch[k].id < |s.rows|)
    && (cfg.broker && r.phase == Marking ==> r.batch[r.pos].id in s.sent)
  }

  ghost predicate Inv(cfg: Config, s: State) {
    && (forall i :: 0 <= i < |s.rows| ==> RowOk(cfg, s, i))
    && (forall k :: k in s.relays ==> RelayOk(cfg, s, s.relays[k]))
  }

  /** Rows are never removed, and what they announce never changes. */
  predicate Keeps(before: State, after: State) {
    && |before.rows| <= |after.rows| && before.now <= after.now && before.sent <= after.sent
    && forall i :: 0 <= i < |before.rows| ==>
         after.rows[i].event == before.rows[i].event && after.rows[i].createdAt == before.rows[i].createdAt
  }

  lemma NextKeeps(cfg: Config, s: State, a: Action)
    ensures Keeps(s, Next(cfg, s, a))
  {
  }

  lemma NextRowOk(cfg: Config, s: State, a: Action, i: Id)
    requires Inv(cfg, s) && i < |Next(cfg, s, a).rows|
    ensures RowOk(cfg, Next(cfg, s, a), i)
  {
    if i < |s.rows| {
      assert RowOk(cfg, s, i);
      if (a.Mark? || a.Fail?) && a.relay in s.relays {
        assert RelayOk(cfg, s, s.relays[a.relay]);
      }
    }
  }

  lemma NextRelayOk(cfg: Config, s: State, a: Action, k: RelayId)
    requires Inv(cfg, s) && k in Next(cfg, s, a).relays
    ensures RelayOk(cfg, Next(cfg, s, a), Next(cfg, s, a).relays[k])
  {
    if k in s.relays {
      assert RelayOk(cfg, s, s.relays[k]);
    }
  }

  lemma NextKeepsInv(cfg: Config, s: State, a: Action)
    requires Inv(cfg, s)
    ensures Inv(cfg, Next(cfg, s, a))
  {
    forall i | 0 <= i < |Next(cfg, s, a).rows| ensures RowOk(cfg, Next(cfg, s, a), i) {
      NextRowOk(cfg, s, a, i);
    }
    forall k | k in Next(cfg, s, a).relays ensures RelayOk(cfg, Next(cfg, s, a), Next(cfg, s, a).relays[k]) {
      NextRelayOk(cfg, s, a, k);
    }
  }

  lemma {:induction false} AlwaysInv(cfg: Config, now: Time, acts: seq<Action>)
    ensures Inv(cfg, Run(cfg, Init(now), acts))
  {
    if acts != [] {
      AlwaysInv(cfg, now, acts[..|acts| - 1]);
      NextKeepsInv(cfg, Run(cfg, Init(now), acts[..|acts| - 1]), acts[|acts| - 1]);
    }
  }

  /**
   Whatever the relays, crashes and failures: a published row reached the broker, a failed one used up
   its attempts, and every other row can be claimed again at the latest when it is two minutes old.
   */
  lemma RelaySafety(cfg: Config, start: Time, acts: seq<Action>, i: Id)
    requires i < |Run(cfg, Init(start), acts).rows|
    ensures var s := Run(cfg, Init(start), acts);
            var r := s.rows[i];
            && (cfg.broker && r.status == PUBLISHED ==> i in s.sent)
            && (r.status == FAILED ==> r.attempts >= cfg.maxAttempts)
            && (s.now > r.createdAt + 120000 ==> r.status == PUBLISHED || r.status == FAILED || Claimable(r, s.now))
  {
    AlwaysInv(cfg, start, acts);
    assert RowOk(cfg, Run(cfg, Init(start), acts), i);
  }

  /**
   Exactly which claims go through: by an idle relay, of one to a hundred different rows by age, each of them
   waiting or in processing for more than two minutes.
   */
  lemma ClaimIffEligible(cfg: Config, s: State, k: RelayId, ids: seq<Id>)
    requires forall j :: 0 <= j < |ids| ==> ids[j] < |s.rows|
    requires k !in s.relays
    ensures k in Next(cfg, s, Claim(k, ids)).relays <==>
              && 0 < |ids| <= 100
              && (forall j :: 0 <= j < |ids| ==>
                    var r := s.rows[ids[j]];
                    r.status == PENDING || (r.status == PROCESSING && s.now - r.updatedAt > 2 * 60 * 1000))
              && forall i, j :: 0 <= i < j < |ids| ==>
                   ids[i] != ids[j] && s.rows[ids[i]].createdAt <= s.rows[ids[j]].createdAt
  {
  }

  lemma {:induction false} RowsAreForever(cfg: Config, s: State, acts: seq<Action>)
    ensures Keeps(s, Run(cfg, s, acts))
  {
    if acts != [] {
      var mid := Run(cfg, s, acts[..|acts| - 1]);
      RowsAreForever(cfg, s, acts[..|acts| - 1]);
      NextKeeps(cfg, mid, acts[|acts| - 1]);
    }
  }

  /** How to publish one unfinished row from wherever the relays left it. */
  function Rescue(cfg: Config, k: RelayId, i: Id): seq<Action> {
    [] + [Tick(PROCESSING_STALE_MS + 1)] + [Claim(k, [i])] + [Send(k, true, true)] + [Mark(k, true, true)]
  }

  /** No event is ever stuck: an unfinished row can still be delivered and published by any idle relay. */
  lemma NothingIsStuck(cfg: Config, start: Time, acts: seq<Action>, i: Id, k: RelayId)
    requires var s := Run(cfg, Init(start), acts); i < |s.rows| && !Finished(s.rows[i]) && k !in s.relays
    ensures var t := Run(cfg, Run(cfg, Init(start), acts), Rescue(cfg, k, i));
            i < |t.rows| && t.rows[i].status == PUBLISHED && (cfg.broker ==> i in t.sent)
  {
    var s := Run(cfg, Init(start), acts);
    AlwaysInv(cfg, start, acts);
    assert RowOk(cfg, s, i);
    RescueWorks(cfg, s, i, k);
  }

  /** Not even the rows of a relay that crashed: it can be started again and publish them itself. */
  lemma CrashedRelayRecovers(cfg: Config, start: Time, acts: seq<Action>, i: Id, k: RelayId)
    requires var s := Run(cfg, Init(start), acts); i < |s.rows| && !Finished(s.rows[i])
    ensures var t := Run(cfg, Run(cfg, Init(start), acts + [Crash(k)]), Rescue(cfg, k, i));
            i < |t.rows| && t.rows[i].status == PUBLISHED && (cfg.broker ==> i in t.sent)
  {
    RunSnoc(cfg, Init(start), acts, Crash(k));
    NothingIsStuck(cfg, start, acts + [Crash(k)], i, k);
  }

  lemma RescueWorks(cfg: Config, s: State, i: Id, k: RelayId)
    requires i < |s.rows| && !Finished(s.rows[i]) && k !in s.relays && s.rows[i].updatedAt <= s.now
    ensures var t := Run(cfg, s, Rescue(cfg, k, i));
            i < |t.rows| && t.rows[i].status == PUBLISHED && (cfg.broker ==> i in t.sent)
  {
    var a1, a2, a3, a4 := Tick(PROCESSING_STALE_MS + 1), Claim(k, [i]), Send(k, true, true), Mark(k, true, true);
    RunSnoc(cfg, s, [], a1);
    RunSnoc(cfg, s, [] + [a1], a2);
    RunSnoc(cfg, s, [] + [a1] + [a2], a3);
    RunSnoc(cfg, s, [] + [a1] + [a2] + [a3], a4);
    var s1 := Next(cfg, s, a1);
    var s2 := Next(cfg, s1, a2);
    RescueClaims(cfg, s1, i, k);
    RescueSends(cfg, s2, i, k);
  }

  lemma RescueClaims(cfg: Config, s: State, i: Id, k: RelayId)
    requires i < |s.rows| && Claimable(s.rows[i], s.now) && k !in s.relays
    ensures var t := Next(cfg, s, Claim(k, [i]));
            && |t.rows| == |s.rows|
            && t.relays == s.relays[k := Relay([Claimed(i, s.rows[i].attempts)], 0, FirstPhase(cfg))]
  {
    assert Snapshots(s.rows, [i]) == [Claimed(i, s.rows[i].attempts)];
  }

  lemma RescueSends(cfg: Config, s: State, i: Id, k: RelayId)
    requires i < |s.rows| && k in s.relays
    requires exists n :: s.relays[k] == Relay([Claimed(i, n)], 0, FirstPhase(cfg))
    ensures var t := Next(cfg, Next(cfg, s, Send(k, true, true)), Mark(k, true, true));
            i < |t.rows| && t.rows[i].status == PUBLISHED && (cfg.broker ==> i in t.sent)
  {
    var u := Next(cfg, s, Send(k, true, true));
    assert Busy(u, k, Marking) && Current(u, k).id == i;
  }
}
