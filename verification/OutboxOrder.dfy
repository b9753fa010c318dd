/** In which order a relay without failures hands events over, and when that is the order of commits. */
module OutboxOrder {
  import opened Outbox
  import Dispatch
  import Sorting

  // ----- the claiming query of a relay that is alone

  function Eligible(rows: seq<Row>, now: Time, n: nat): seq<Id>
    requires n <= |rows|
  {
    if n == 0 then [] else Eligible(rows, now, n - 1) + if Claimable(rows[n - 1], now) then [n - 1] else []
  }

  /** The first `n` eligible rows by some key. */
  function FirstBy(rows: seq<Row>, now: Time, key: Id -> real, n: nat): seq<Id> {
    var sorted := Sorting.Sort(Eligible(rows, now, |rows|), key);
    if n < |sorted| then sorted[..n] else sorted
  }

  function Age(rows: seq<Row>): Id -> real {
    (i: Id) => if i < |rows| then rows[i].createdAt as real else 0.0
  }

  /** A batch the query may return when no row is locked; rows of the same age come in any order. */
  predicate OldestBatch(rows: seq<Row>, now: Time, n: nat, ids: seq<Id>) {
    && |ids| <= n
    && (forall k :: 0 <= k < |ids| ==> ids[k] < |rows| && Claimable(rows[ids[k]], now))
    && (forall j, k :: 0 <= j < k < |ids| ==> ids[j] != ids[k] && rows[ids[j]].createdAt <= rows[ids[k]].createdAt)
    && (forall i :: 0 <= i < |rows| && Claimable(rows[i], now) && i !in ids ==>
          |ids| == n && forall k :: 0 <= k < |ids| ==> rows[ids[k]].createdAt <= rows[i].createdAt)
  }

  lemma OneMoreEligible(rest: seq<Id>, x: Id, i: Id)
    ensures multiset(rest + [x])[i] == multiset(rest)[i] + if x == i then 1 else 0
  {
  }

  lemma {:induction false} EligibleOnce(rows: seq<Row>, now: Time, n: nat, i: Id)
    requires n <= |rows|
    ensures multiset(Eligible(rows, now, n))[i] == if i < n && Claimable(rows[i], now) then 1 else 0
  {
    if n > 0 {
      var rest := Eligible(rows, now, n - 1);
      EligibleOnce(rows, now, n - 1, i);
      OneMoreEligible(rest, n - 1, i);
      assert Eligible(rows, now, n) == if Claimable(rows[n - 1], now) then rest + [n - 1] else rest;
    }
  }

  lemma Once(s: seq<Id>, j: nat, k: nat)
    requires j < k < |s|
    ensures s[j] == s[k] ==> multiset(s)[s[k]] >= 2
  {
    assert s == s[..k] + s[k..];
    assert s[j] in s[..k] && s[k] in s[k..];
  }

  /** Sorted by any key, the eligible rows are all there, once each, in the order of their keys. */
  lemma SortedEligible(rows: seq<Row>, now: Time, key: Id -> real)
    ensures var sorted: seq<Id> := Sorting.Sort(Eligible(rows, now, |rows|), key);
            && (forall k :: 0 <= k < |sorted| ==> sorted[k] < |rows| && Claimable(rows[sorted[k]], now))
            && (forall j, k :: 0 <= j < k < |sorted| ==> sorted[j] != sorted[k] && key(sorted[j]) <= key(sorted[k]))
            && (forall i :: 0 <= i < |rows| && Claimable(rows[i], now) ==> i in sorted)
  {
    var all := Eligible(rows, now, |rows|);
    var sorted: seq<Id> := Sorting.Sort(all, key);
    Sorting.SortPermutes(all, key);
    Sorting.SortSorts(all, key);
    forall k | 0 <= k < |sorted| ensures sorted[k] < |rows| && Claimable(rows[sorted[k]], now) {
      EligibleOnce(rows, now, |rows|, sorted[k]);
      assert sorted[k] in multiset(sorted);
    }
    forall j, k | 0 <= j < k < |sorted| ensures sorted[j] != sorted[k] {
      EligibleOnce(rows, now, |rows|, sorted[k]);
      Once(sorted, j, k);
    }
    forall i | 0 <= i < |rows| && Claimable(rows[i], now) ensures i in sorted {
      EligibleOnce(rows, now, |rows|, i);
      assert i in multiset(sorted);
    }
  }

  /** Cut off after `n`, they are the ones with the smallest keys. */
  lemma FirstByIsFirst(rows: seq<Row>, now: Time, key: Id -> real, n: nat)
    ensures var ids := FirstBy(rows, now, key, n);
            && |ids| <= n
            && (forall k :: 0 <= k < |ids| ==> ids[k] < |rows| && Claimable(rows[ids[k]], now))
            && (forall j, k :: 0 <= j < k < |ids| ==> ids[j] != ids[k] && key(ids[j]) <= key(ids[k]))
            && (forall i :: 0 <= i < |rows| && Claimable(rows[i], now) && i !in ids ==>
                  |ids| == n && forall k :: 0 <= k < |ids| ==> key(ids[k]) <= key(i))
  {
    var sorted: seq<Id>, ids := Sorting.Sort(Eligible(rows, now, |rows|), key), FirstBy(rows, now, key, n);
    SortedEligible(rows, now, key);
    CutOff(sorted, ids, rows, now, key);
  }

  lemma CutOff(sorted: seq<Id>, ids: seq<Id>, rows: seq<Row>, now: Time, key: Id -> real)
    requires |ids| <= |sorted| && ids == sorted[..|ids|]
    requires forall j, k :: 0 <= j < k < |sorted| ==> key(sorted[j]) <= key(sorted[k])
    requires forall i :: 0 <= i < |rows| && Claimable(rows[i], now) ==> i in sorted
    ensures forall i :: 0 <= i < |rows| && Claimable(rows[i], now) && i !in ids ==>
              |ids| < |sorted| && forall k :: 0 <= k < |ids| ==> key(ids[k]) <= key(i)
  {
    forall i | 0 <= i < |rows| && Claimable(rows[i], now) && i !in ids
      ensures |ids| < |sorted| && forall k :: 0 <= k < |ids| ==> key(ids[k]) <= key(i)
    {
      var k :| 0 <= k < |sorted| && sorted[k] == i;
      assert k >= |ids|;
    }
  }

  function Oldest(rows: seq<Row>, now: Time, n: nat): (ids: seq<Id>)
    ensures forall k :: 0 <= k < |ids| ==> ids[k] < |rows|
  {
    FirstByIsFirst(rows, now, Age(rows), n);
    FirstBy(rows, now, Age(rows), n)
  }

  lemma OldestIsBatch(rows: seq<Row>, now: Time, n: nat)
    ensures OldestBatch(rows, now, n, Oldest(rows, now, n))
  {
    var ids := Oldest(rows, now, n);
    FirstByIsFirst(rows, now, Age(rows), n);
    forall j, k | 0 <= j < k < |ids| ensures rows[ids[j]].createdAt <= rows[ids[k]].createdAt {
      assert Age(rows)(ids[j]) <= Age(rows)(ids[k]);
    }
    forall i, k | 0 <= i < |rows| && Claimable(rows[i], now) && i !in ids && 0 <= k < |ids|
      ensures rows[ids[k]].createdAt <= rows[i].createdAt
    {
      assert Age(rows)(ids[k]) <= Age(rows)(i);
    }
  }

  // ----- one relay without failures

  /** One relay, a broker that always answers, writes that always succeed; rows arrive at any time. */
  predicate Smooth(s: State, a: Action) {
    match a
    case Insert(_, _) => true
    case Tick(_) => true
    case Claim(k, ids) => k == 0 && OldestBatch(s.rows, s.now, BATCH_SIZE, ids)
    case Send(k, ok, _) => k == 0 && ok
    case Mark(k, ok, _) => k == 0 && ok
    case _ => false
  }

  ghost predicate SmoothRun(cfg: Config, s: State, acts: seq<Action>) {
    forall i :: 0 <= i < |acts| ==> Smooth(Run(cfg, s, acts[..i]), acts[i])
  }

  function Ids(claimed: seq<Claimed>): (ids: seq<Id>)
    ensures |ids| == |claimed|
  {
    seq(|claimed|, k requires 0 <= k < |claimed| => claimed[k].id)
  }

  /** The part of the batch that is still to be finished. */
  function InBatch(s: State): seq<Id> {
    if 0 in s.relays && s.relays[0].pos <= |s.relays[0].batch| then Ids(s.relays[0].batch[s.relays[0].pos..]) else []
  }

  /** The part of the batch that is still to be sent. */
  function ToSend(s: State): seq<Id> {
    if 0 in s.relays && s.relays[0].phase == Marking && InBatch(s) != [] then InBatch(s)[1..] else InBatch(s)
  }

  /** What the broker has had and what it gets next. */
  function Plan(s: State): seq<Id> {
    s.sent + ToSend(s)
  }

  /** Rows in the table, each once; a row before one that committed earlier began no later than that one. */
  ghost predicate Fair(rows: seq<Row>, plan: seq<Id>) {
    && (forall b :: 0 <= b < |plan| ==> plan[b] < |rows|)
    && (forall a, b :: 0 <= a < b < |plan| ==> plan[a] != plan[b])
    && (forall b, i :: 0 <= b < |plan| && 0 <= i < plan[b] ==>
          i in plan[..b] || rows[plan[b]].createdAt <= rows[i].createdAt)
  }

  /** Every row is published and sent, in hand, or untouched and waiting. */
  predicate StatusFits(s: State, i: Id)
    requires i < |s.rows|
  {
    match s.rows[i].status
    case PENDING => i !in Plan(s)
    case PROCESSING => i in Plan(s) && i in InBatch(s)
    case PUBLISHED => i in s.sent
    case FAILED => false
  }

  ghost predicate InOrder(s: State) {
    && (forall k :: k in s.relays ==> k == 0)
    && (0 in s.relays ==> s.relays[0].phase != Failing && InBatch(s) != [])
    && (0 in s.relays && s.relays[0].phase == Marking ==> InBatch(s)[0] in s.sent)
    && Fair(s.rows, Plan(s))
    && forall i :: 0 <= i < |s.rows| ==> StatusFits(s, i)
  }

  lemma FairPrefix(rows: seq<Row>, plan: seq<Id>, n: nat)
    requires Fair(rows, plan) && n <= |plan|
    ensures Fair(rows, plan[..n])
  {
    forall b, i | 0 <= b < n && 0 <= i < plan[b]
      ensures i in plan[..n][..b] || rows[plan[..n][b]].createdAt <= rows[i].createdAt
    {
      assert plan[..n][..b] == plan[..b];
    }
  }

  lemma FairGrows(rows: seq<Row>, rows': seq<Row>, plan: seq<Id>)
    requires Fair(rows, plan) && |rows| <= |rows'|
    requires forall i :: 0 <= i < |rows| ==> rows'[i].createdAt == rows[i].createdAt
    ensures Fair(rows', plan)
  {
  }

  /** Sending moves nothing in the plan. */
  lemma SendKeepsPlan(cfg: Config, s: State, delivered: bool)
    requires 0 in s.relays && Busy(s, 0, Sending)
    ensures var t := Next(cfg, s, Send(0, true, delivered));
            && t.rows == s.rows && 0 in t.relays && t.relays[0].phase == Marking
            && InBatch(t) == InBatch(s) != [] && t.sent == s.sent + [InBatch(s)[0]] && Plan(t) == Plan(s)
  {
    var t, x, rest := Next(cfg, s, Send(0, true, delivered)), InBatch(s)[0], InBatch(s)[1..];
    assert t.relays[0] == s.relays[0].(phase := Marking);
    assert Current(s, 0).id == x;
    assert ToSend(t) == rest && ToSend(s) == InBatch(s);
    Shift(s.sent, InBatch(s));
  }

  lemma Shift(a: seq<Id>, b: seq<Id>)
    requires b != []
    ensures (a + [b[0]]) + b[1..] == a + b
  {
  }

  /** Nor does marking; the batch gets shorter by the row marked. */
  lemma MarkKeepsPlan(cfg: Config, s: State, applied: bool)
    requires cfg.broker && 0 in s.relays && Busy(s, 0, Marking)
    ensures var t := Next(cfg, s, Mark(0, true, applied));
            && InBatch(s) != [] && InBatch(t) == InBatch(s)[1..] && t.sent == s.sent && Plan(t) == Plan(s)
            && InBatch(s)[0] < |s.rows|
            && t.rows == s.rows[InBatch(s)[0] := Published(s.rows[InBatch(s)[0]])]
            && (0 in t.relays ==> t.relays[0].phase == Sending && InBatch(t) != [])
  {
    var t, r := Next(cfg, s, Mark(0, true, applied)), s.relays[0];
    assert InBatch(s) == Ids(r.batch[r.pos..]) && Current(s, 0).id == InBatch(s)[0];
    IdsTail(r.batch, r.pos);
    if r.pos + 1 < |r.batch| {
      assert t.relays[0] == Relay(r.batch, r.pos + 1, Sending);
      assert InBatch(t) == Ids(r.batch[r.pos + 1..]);
    } else {
      assert 0 !in t.relays && r.batch[r.pos + 1..] == [];
    }
    assert ToSend(s) == InBatch(s)[1..] && ToSend(t) == InBatch(t);
  }

  lemma IdsTail(batch: seq<Claimed>, pos: nat)
    requires pos < |batch|
    ensures Ids(batch[pos..])[1..] == Ids(batch[pos + 1..])
  {
  }

  lemma ClaimPlans(cfg: Config, s: State, ids: seq<Id>)
    requires cfg.broker && 0 !in s.relays && ids != [] && OldestBatch(s.rows, s.now, BATCH_SIZE, ids)
    ensures var t := Next(cfg, s, Claim(0, ids));
            && InBatch(t) == ToSend(t) == ids && t.sent == s.sent && t.rows == Processing(s.rows, ids)
            && 0 in t.relays && t.relays[0] == Relay(Snapshots(s.rows, ids), 0, Sending)
            && t.relays.Keys == s.relays.Keys + {0} && t.now == s.now
  {
    var t := Next(cfg, s, Claim(0, ids));
    assert t.relays[0] == Relay(Snapshots(s.rows, ids), 0, Sending);
    assert InBatch(t) == ids;
  }

  lemma InsertInOrder(cfg: Config, s: State, e: Dispatch.Event, began: Time)
    requires InOrder(s)
    ensures InOrder(Next(cfg, s, Insert(e, began)))
  {
    var t := Next(cfg, s, Insert(e, began));
    assert InBatch(t) == InBatch(s) && Plan(t) == Plan(s);
    FairGrows(s.rows, t.rows, Plan(s));
    forall i | 0 <= i < |t.rows| ensures StatusFits(t, i) {
      assert i < |s.rows| ==> StatusFits(s, i);
    }
  }

  lemma TickInOrder(cfg: Config, s: State, ms: nat)
    requires InOrder(s)
    ensures InOrder(Next(cfg, s, Tick(ms)))
  {
    var t := Next(cfg, s, Tick(ms));
    assert InBatch(t) == InBatch(s) && Plan(t) == Plan(s);
    forall i | 0 <= i < |t.rows| ensures StatusFits(t, i) {
      assert StatusFits(s, i);
    }
  }

  /** A row claimed is fair to every earlier one: that was sent, is claimed before it, or is no older. */
  lemma ClaimIsFair(s: State, ids: seq<Id>, k: nat, i: Id)
    requires InOrder(s) && 0 !in s.relays && OldestBatch(s.rows, s.now, BATCH_SIZE, ids)
    requires k < |ids| && i < ids[k]
    ensures i in s.sent || i in ids[..k] || s.rows[ids[k]].createdAt <= s.rows[i].createdAt
  {
    assert StatusFits(s, i);
    if i in ids {
      var j :| 0 <= j < |ids| && ids[j] == i;
      assert j < k ==> ids[..k][j] == i;
    }
  }

  lemma FairConcat(rows: seq<Row>, sent: seq<Id>, ids: seq<Id>)
    requires Fair(rows, sent)
    requires forall k :: 0 <= k < |ids| ==> ids[k] < |rows| && ids[k] !in sent
    requires forall j, k :: 0 <= j < k < |ids| ==> ids[j] != ids[k]
    requires forall k, i :: 0 <= k < |ids| && 0 <= i < ids[k] ==>
               i in sent || i in ids[..k] || rows[ids[k]].createdAt <= rows[i].createdAt
    ensures Fair(rows, sent + ids)
  {
    var plan, n := sent + ids, |sent|;
    forall b, i | 0 <= b < |plan| && 0 <= i < plan[b]
      ensures i in plan[..b] || rows[plan[b]].createdAt <= rows[i].createdAt
    {
      if b < n {
        assert plan[..b] == sent[..b];
      } else {
        assert plan[..b] == sent + ids[..b - n];
      }
    }
  }

  lemma ClaimKeepsFair(s: State, ids: seq<Id>)
    requires InOrder(s) && 0 !in s.relays && OldestBatch(s.rows, s.now, BATCH_SIZE, ids)
    ensures Fair(s.rows, s.sent + ids)
  {
    assert Plan(s) == s.sent;
    forall k | 0 <= k < |ids| ensures ids[k] !in s.sent {
      assert StatusFits(s, ids[k]) && InBatch(s) == [];
    }
    forall k, i | 0 <= k < |ids| && 0 <= i < ids[k]
      ensures i in s.sent || i in ids[..k] || s.rows[ids[k]].createdAt <= s.rows[i].createdAt
    {
      ClaimIsFair(s, ids, k, i);
    }
    FairConcat(s.rows, s.sent, ids);
  }

  lemma ClaimInOrder(cfg: Config, s: State, ids: seq<Id>)
    requires cfg.broker && InOrder(s) && OldestBatch(s.rows, s.now, BATCH_SIZE, ids)
    ensures InOrder(Next(cfg, s, Claim(0, ids)))
  {
    if 0 !in s.relays && ids != [] {
      var t := Next(cfg, s, Claim(0, ids));
      ClaimPlans(cfg, s, ids);
      ClaimKeepsFair(s, ids);
      FairGrows(s.rows, t.rows, s.sent + ids);
      forall i | 0 <= i < |t.rows| ensures StatusFits(t, i) {
        assert StatusFits(s, i);
      }
    }
  }

  lemma SendInOrder(cfg: Config, s: State, delivered: bool)
    requires cfg.broker && InOrder(s)
    ensures InOrder(Next(cfg, s, Send(0, true, delivered)))
  {
    if 0 in s.relays && Busy(s, 0, Sending) {
      var t := Next(cfg, s, Send(0, true, delivered));
      SendKeepsPlan(cfg, s, delivered);
      forall i | 0 <= i < |t.rows| ensures StatusFits(t, i) {
        assert StatusFits(s, i);
      }
    }
  }

  lemma MarkInOrder(cfg: Config, s: State, applied: bool)
    requires cfg.broker && InOrder(s)
    ensures InOrder(Next(cfg, s, Mark(0, true, applied)))
  {
    if 0 in s.relays && Busy(s, 0, Marking) {
      var t := Next(cfg, s, Mark(0, true, applied));
      MarkKeepsPlan(cfg, s, applied);
      FairGrows(s.rows, t.rows, Plan(s));
      forall i | 0 <= i < |t.rows| ensures StatusFits(t, i) {
        assert StatusFits(s, i);
        assert InBatch(s) == [InBatch(s)[0]] + InBatch(s)[1..];
      }
    }
  }

  lemma NextInOrder(cfg: Config, s: State, a: Action)
    requires cfg.broker && InOrder(s) && Smooth(s, a)
    ensures InOrder(Next(cfg, s, a))
  {
    match a
    case Insert(e, began) => InsertInOrder(cfg, s, e, began);
    case Tick(ms) => TickInOrder(cfg, s, ms);
    case Claim(_, ids) => ClaimInOrder(cfg, s, ids);
    case Send(_, _, delivered) => SendInOrder(cfg, s, delivered);
    case Mark(_, _, applied) => MarkInOrder(cfg, s, applied);
  }

  lemma SmoothPrefix(cfg: Config, s: State, acts: seq<Action>, n: nat)
    requires SmoothRun(cfg, s, acts) && n <= |acts|
    ensures SmoothRun(cfg, s, acts[..n])
  {
    forall i | 0 <= i < n ensures Smooth(Run(cfg, s, acts[..n][..i]), acts[..n][i]) {
      assert acts[..n][..i] == acts[..i];
    }
  }

  lemma {:induction false} RunInOrder(cfg: Config, s: State, acts: seq<Action>)
    requires cfg.broker && InOrder(s) && SmoothRun(cfg, s, acts)
    ensures InOrder(Run(cfg, s, acts))
  {
    if acts != [] {
      var n := |acts| - 1;
      SmoothPrefix(cfg, s, acts, n);
      RunInOrder(cfg, s, acts[..n]);
      NextInOrder(cfg, Run(cfg, s, acts[..n]), acts[n]);
    }
  }

  /**
   Without failures the broker gets every event at most once, and has had every published one; an event
   goes out before one that committed earlier only if its transaction began no later.
   */
  lemma FailureFreeOrder(cfg: Config, start: Time, acts: seq<Action>)
    requires cfg.broker && SmoothRun(cfg, Init(start), acts)
    ensures var s := Run(cfg, Init(start), acts);
            && Fair(s.rows, s.sent)
            && forall i :: 0 <= i < |s.rows| ==>
                 (Finished(s.rows[i]) ==> i in s.sent) && (s.rows[i].status == PENDING ==> i !in s.sent)
  {
    RunInOrder(cfg, Init(start), acts);
    OrderMeans(Run(cfg, Init(start), acts));
  }

  lemma RowMeans(s: State, i: Id)
    requires InOrder(s) && i < |s.rows|
    ensures (Finished(s.rows[i]) ==> i in s.sent) && (s.rows[i].status == PENDING ==> i !in s.sent)
    ensures 0 !in s.relays && i !in s.sent ==> s.rows[i].status == PENDING
  {
    assert StatusFits(s, i);
    if i in s.sent {
      var b :| 0 <= b < |s.sent| && s.sent[b] == i;
      assert Plan(s)[b] == i;
    }
  }

  lemma OrderMeans(s: State)
    requires InOrder(s)
    ensures Fair(s.rows, s.sent)
    ensures forall i :: 0 <= i < |s.rows| ==>
              (Finished(s.rows[i]) ==> i in s.sent) && (s.rows[i].status == PENDING ==> i !in s.sent)
    ensures 0 !in s.relays ==> forall i :: 0 <= i < |s.rows| && i !in s.sent ==> s.rows[i].status == PENDING
  {
    assert Plan(s)[..|s.sent|] == s.sent;
    FairPrefix(s.rows, Plan(s), |s.sent|);
    forall i | 0 <= i < |s.rows|
      ensures (Finished(s.rows[i]) ==> i in s.sent) && (s.rows[i].status == PENDING ==> i !in s.sent)
      ensures 0 !in s.relays && i !in s.sent ==> s.rows[i].status == PENDING
    {
      RowMeans(s, i);
    }
  }

  // ----- the order within one ride

  predicate SameRide(rows: seq<Row>, i: int, j: int) {
    0 <= i < |rows| && 0 <= j < |rows| && rows[i].event.ride == rows[j].event.ride
  }

  /** Of two events of a ride, the one that committed last began first (or at the same moment). */
  predicate Overtakes(rows: seq<Row>, j: int, i: int) {
    i < j && SameRide(rows, i, j) && rows[j].createdAt <= rows[i].createdAt
  }

  /** Every event went out after all events of its ride that committed earlier. */
  ghost predicate PerRideOrder(s: State) {
    forall b, i :: 0 <= b < |s.sent| && 0 <= i < s.sent[b] && SameRide(s.rows, i, s.sent[b]) ==> i in s.sent[..b]
  }

  lemma FairInOrder(s: State)
    requires Fair(s.rows, s.sent) && forall i, j :: !Overtakes(s.rows, j, i)
    ensures PerRideOrder(s)
  {
    forall b, i | 0 <= b < |s.sent| && 0 <= i < s.sent[b] && SameRide(s.rows, i, s.sent[b]) ensures i in s.sent[..b] {
      assert !Overtakes(s.rows, s.sent[b], i);
    }
  }

  predicate NoInsert(acts: seq<Action>) {
    forall i :: 0 <= i < |acts| ==> !acts[i].Insert?
  }

  /** `t` can follow `s` without failures and without new rows. */
  ghost predicate Drains(cfg: Config, s: State, t: State) {
    exists acts :: SmoothRun(cfg, s, acts) && NoInsert(acts) && Run(cfg, s, acts) == t
  }

  lemma DrainsSelf(cfg: Config, s: State)
    ensures Drains(cfg, s, s)
  {
    assert SmoothRun(cfg, s, []) && NoInsert([]) && Run(cfg, s, []) == s;
  }

  lemma SmoothSnoc(cfg: Config, s: State, acts: seq<Action>, a: Action)
    requires SmoothRun(cfg, s, acts) && Smooth(Run(cfg, s, acts), a)
    ensures SmoothRun(cfg, s, acts + [a])
  {
    forall i | 0 <= i < |acts + [a]| ensures Smooth(Run(cfg, s, (acts + [a])[..i]), (acts + [a])[i]) {
      assert (acts + [a])[..i] == acts[..i];
      assert i == |acts| ==> acts[..i] == acts;
    }
  }

  lemma SmoothConcat(cfg: Config, s: State, before: seq<Action>, more: seq<Action>)
    requires SmoothRun(cfg, s, before) && SmoothRun(cfg, Run(cfg, s, before), more)
    ensures SmoothRun(cfg, s, before + more)
  {
    var acts, n := before + more, |before|;
    forall i | 0 <= i < |acts| ensures Smooth(Run(cfg, s, acts[..i]), acts[i]) {
      if i < n {
        assert acts[..i] == before[..i];
      } else {
        assert acts[..i] == before + more[..i - n];
        RunConcat(cfg, s, before, more[..i - n]);
      }
    }
  }

  lemma SmoothThen(cfg: Config, s: State, before: seq<Action>, t: State) returns (acts: seq<Action>)
    requires SmoothRun(cfg, s, before) && Drains(cfg, Run(cfg, s, before), t)
    ensures SmoothRun(cfg, s, acts) && Run(cfg, s, acts) == t
  {
    var more :| SmoothRun(cfg, Run(cfg, s, before), more) && NoInsert(more) && Run(cfg, Run(cfg, s, before), more) == t;
    SmoothConcat(cfg, s, before, more);
    RunConcat(cfg, s, before, more);
    acts := before + more;
  }

  lemma DrainsOn(cfg: Config, s: State, t: State, a: Action)
    requires Drains(cfg, s, t) && Smooth(t, a) && !a.Insert?
    ensures Drains(cfg, s, Next(cfg, t, a))
  {
    var acts :| SmoothRun(cfg, s, acts) && NoInsert(acts) && Run(cfg, s, acts) == t;
    RunSnoc(cfg, s, acts, a);
    SmoothSnoc(cfg, s, acts, a);
    assert NoInsert(acts + [a]);
  }

  /** Same rows, apart from their statuses, and possibly more of them sent. */
  predicate SameRows(s: State, t: State) {
    && |t.rows| == |s.rows| && s.sent <= t.sent
    && forall i :: 0 <= i < |s.rows| ==>
         t.rows[i].event == s.rows[i].event && t.rows[i].createdAt == s.rows[i].createdAt
  }

  lemma {:induction false} DrainKeepsRows(cfg: Config, s: State, acts: seq<Action>)
    requires NoInsert(acts)
    ensures SameRows(s, Run(cfg, s, acts))
  {
    if acts != [] {
      DrainKeepsRows(cfg, s, acts[..|acts| - 1]);
      NextKeeps(cfg, Run(cfg, s, acts[..|acts| - 1]), acts[|acts| - 1]);
    }
  }

  /** An idle relay claims the batch, and sends and publishes the first `p` rows of it. */
  lemma {:induction false} SendPart(cfg: Config, s0: State, s: State, ids: seq<Id>, p: nat) returns (t: State)
    requires cfg.broker && Drains(cfg, s0, s) && InOrder(s) && 0 !in s.relays
    requires ids != [] && OldestBatch(s.rows, s.now, BATCH_SIZE, ids) && p <= |ids|
    ensures Drains(cfg, s0, t) && InOrder(t) && SameRows(s, t)
    ensures t.sent == s.sent + ids[..p] && InBatch(t) == ids[p..]
    ensures if p < |ids| then 0 in t.relays && t.relays[0].phase == Sending else 0 !in t.relays
    decreases p
  {
    if p == 0 {
      DrainsOn(cfg, s0, s, Claim(0, ids));
      ClaimInOrder(cfg, s, ids);
      ClaimPlans(cfg, s, ids);
      t := Next(cfg, s, Claim(0, ids));
    } else {
      var u := SendPart(cfg, s0, s, ids, p - 1);
      OneMore(s.sent, ids, p);
      t := SendOne(cfg, s0, u);
      SameRowsOn(s, u, t);
    }
  }

  lemma SameRowsOn(s: State, t: State, u: State)
    requires SameRows(s, t) && SameRows(t, u)
    ensures SameRows(s, u)
  {
  }

  lemma SendFirst(cfg: Config, s: State, ids: seq<Id>) returns (t: State)
    requires cfg.broker && InOrder(s) && 0 !in s.relays && s.sent == []
    requires ids != [] && OldestBatch(s.rows, s.now, BATCH_SIZE, ids)
    ensures Drains(cfg, s, t) && SameRows(s, t) && t.sent == ids
  {
    DrainsSelf(cfg, s);
    t := SendPart(cfg, s, s, ids, |ids|);
    assert s.sent + ids[..|ids|] == ids;
  }

  lemma OneMore(sent: seq<Id>, ids: seq<Id>, p: nat)
    requires 0 < p <= |ids|
    ensures sent + ids[..p] == sent + ids[..p - 1] + [ids[p - 1]]
    ensures ids[p - 1..][0] == ids[p - 1] && ids[p - 1..][1..] == ids[p..]
  {
  }

  lemma SendOne(cfg: Config, s0: State, s: State) returns (t: State)
    requires cfg.broker && Drains(cfg, s0, s) && InOrder(s) && 0 in s.relays && s.relays[0].phase == Sending
    ensures InBatch(s) != []
    ensures Drains(cfg, s0, t) && InOrder(t) && SameRows(s, t)
    ensures t.sent == s.sent + [InBatch(s)[0]] && InBatch(t) == InBatch(s)[1..]
    ensures if InBatch(t) != [] then 0 in t.relays && t.relays[0].phase == Sending else 0 !in t.relays
  {
    CurrentBusy(s);
    var u := Next(cfg, s, Send(0, true, true));
    SendKeepsPlan(cfg, s, true);
    SendInOrder(cfg, s, true);
    DrainsOn(cfg, s0, s, Send(0, true, true));
    CurrentBusy(u);
    t := Next(cfg, u, Mark(0, true, true));
    MarkKeepsPlan(cfg, u, true);
    MarkInOrder(cfg, u, true);
    DrainsOn(cfg, s0, u, Mark(0, true, true));
  }

  lemma CurrentBusy(s: State)
    requires InOrder(s) && 0 in s.relays
    ensures Busy(s, 0, s.relays[0].phase)
  {
    assert InBatch(s)[0] == s.relays[0].batch[s.relays[0].pos].id;
    if s.relays[0].phase == Sending {
      assert Plan(s)[|s.sent|] == InBatch(s)[0];
    } else {
      var b :| 0 <= b < |s.sent| && s.sent[b] == InBatch(s)[0];
      assert Plan(s)[b] == InBatch(s)[0];
    }
  }

  /** By age, and of rows of one age the last one first. */
  function LateFirst(rows: seq<Row>): Id -> real {
    (i: Id) => if i < |rows| then (rows[i].createdAt * |rows| - i) as real else 0.0
  }

  lemma LateFirstByAge(rows: seq<Row>, i: Id, j: Id)
    requires i < |rows| && j < |rows|
    ensures LateFirst(rows)(i) <= LateFirst(rows)(j) ==> rows[i].createdAt <= rows[j].createdAt
    ensures i < j && rows[j].createdAt <= rows[i].createdAt ==> LateFirst(rows)(j) < LateFirst(rows)(i)
  {
    var a, b, n := rows[i].createdAt, rows[j].createdAt, |rows|;
    assert a >= b + 1 ==> a * n >= (b + 1) * n == b * n + n;
    assert b <= a ==> b * n <= a * n;
  }

  lemma LateFirstIsBatch(rows: seq<Row>, now: Time, n: nat)
    ensures OldestBatch(rows, now, n, FirstBy(rows, now, LateFirst(rows), n))
  {
    var ids := FirstBy(rows, now, LateFirst(rows), n);
    FirstByIsFirst(rows, now, LateFirst(rows), n);
    forall j, k | 0 <= j < k < |ids| ensures rows[ids[j]].createdAt <= rows[ids[k]].createdAt {
      LateFirstByAge(rows, ids[j], ids[k]);
    }
    forall i, k | 0 <= i < |rows| && Claimable(rows[i], now) && i !in ids && 0 <= k < |ids|
      ensures rows[ids[k]].createdAt <= rows[i].createdAt
    {
      LateFirstByAge(rows, ids[k], i);
    }
  }

  lemma {:induction false} DistinctAtMost(s: seq<Id>, n: nat)
    requires forall a, b :: 0 <= a < b < |s| ==> s[a] != s[b]
    requires forall a :: 0 <= a < |s| ==> s[a] < n
    ensures |s| <= n
  {
    if s != [] {
      assert n > s[0];
      if n - 1 in s {
        var k :| 0 <= k < |s| && s[k] == n - 1;
        DistinctAtMost(s[..k] + s[k + 1..], n - 1);
      } else {
        DistinctAtMost(s, n - 1);
      }
    }
  }

  /** Of two waiting rows of which the later one began first, the later one can go out while the other waits. */
  lemma {:induction false} OvertakenGoesLast(cfg: Config, s0: State, s: State, i: Id, j: Id) returns (t: State)
    requires cfg.broker && Drains(cfg, s0, s) && InOrder(s) && 0 !in s.relays
    requires Overtakes(s.rows, j, i) && i !in s.sent && j !in s.sent
    ensures Drains(cfg, s0, t) && SameRows(s, t) && j in t.sent && i !in t.sent
    decreases |s.rows| - |s.sent|
  {
    var ids := FirstBy(s.rows, s.now, LateFirst(s.rows), BATCH_SIZE);
    LateFirstIsBatch(s.rows, s.now, BATCH_SIZE);
    OvertakerFirst(s, i, j);
    if j in ids {
      var p :| 0 <= p < |ids| && ids[p] == j && i !in ids[..p + 1];
      t := SendPart(cfg, s0, s, ids, p + 1);
      assert ids[..p + 1][p] == j;
    } else {
      var u := SendPart(cfg, s0, s, ids, |ids|);
      assert ids[..|ids|] == ids;
      OrderMeans(u);
      DistinctAtMost(u.sent, |u.rows|);
      t := OvertakenGoesLast(cfg, s0, u, i, j);
    }
  }

  /** In a batch by age with the later of equals first, the overtaking row comes without the other. */
  lemma OvertakerFirst(s: State, i: Id, j: Id)
    requires InOrder(s) && 0 !in s.relays && Overtakes(s.rows, j, i) && i !in s.sent && j !in s.sent
    ensures var ids := FirstBy(s.rows, s.now, LateFirst(s.rows), BATCH_SIZE);
            && (j in ids ==> exists p :: 0 <= p < |ids| && ids[p] == j && i !in ids[..p + 1])
            && (j !in ids ==> i !in ids && |ids| == BATCH_SIZE)
  {
    var key := LateFirst(s.rows);
    var ids := FirstBy(s.rows, s.now, key, BATCH_SIZE);
    FirstByIsFirst(s.rows, s.now, key, BATCH_SIZE);
    LateFirstByAge(s.rows, i, j);
    OrderMeans(s);
    if j in ids {
      var p :| 0 <= p < |ids| && ids[p] == j;
      forall q | 0 <= q < p + 1 ensures ids[q] != i {
        assert q < p ==> key(ids[q]) <= key(ids[p]);
      }
    }
  }

  /** No waiting row overtakes an earlier waiting row of its ride. */
  ghost predicate NoneOvertakenWaiting(s: State) {
    forall i: Id, j: Id :: Overtakes(s.rows, j, i) && i !in s.sent ==> j in s.sent
  }

  /**
   Exactly when a drain keeps the order of commits within each ride. Take a relay without failures,
   between two batches and with everything in order so far: everything it can send from then on is in
   order too, if and only if no waiting row overtakes an earlier waiting row of its ride.
   */
  lemma DrainInOrderIffNoneOvertaken(cfg: Config, s: State)
    requires cfg.broker && InOrder(s) && 0 !in s.relays && PerRideOrder(s)
    ensures NoneOvertakenWaiting(s) <==> forall t :: Drains(cfg, s, t) ==> PerRideOrder(t)
  {
    if !NoneOvertakenWaiting(s) {
      var i: Id, j: Id :| Overtakes(s.rows, j, i) && i !in s.sent && j !in s.sent;
      DrainsSelf(cfg, s);
      var t := OvertakenGoesLast(cfg, s, s, i, j);
      var b :| 0 <= b < |t.sent| && t.sent[b] == j;
      assert SameRide(t.rows, i, t.sent[b]) && i !in t.sent[..b];
      assert !PerRideOrder(t);
    } else {
      forall t | Drains(cfg, s, t) ensures PerRideOrder(t) {
        DrainKeepsOrder(cfg, s, t);
      }
    }
  }

  lemma DrainKeepsOrder(cfg: Config, s: State, t: State)
    requires cfg.broker && InOrder(s) && 0 !in s.relays && PerRideOrder(s) && Drains(cfg, s, t)
    requires NoneOvertakenWaiting(s)
    ensures PerRideOrder(t)
  {
    var more :| SmoothRun(cfg, s, more) && NoInsert(more) && Run(cfg, s, more) == t;
    RunInOrder(cfg, s, more);
    DrainKeepsRows(cfg, s, more);
    OrderMeans(t);
    forall b, i | 0 <= b < |t.sent| && 0 <= i < t.sent[b] && SameRide(t.rows, i, t.sent[b]) ensures i in t.sent[..b] {
      var j, n := t.sent[b], |s.sent|;
      if b < n {
        assert s.sent[b] == j && SameRide(s.rows, i, j);
        assert s.sent[..b] == t.sent[..b];
      } else {
        SentLater(s, t, b);
        if i in s.sent {
          var a :| 0 <= a < n && s.sent[a] == i;
          assert t.sent[..b][a] == i;
        } else {
          assert !Overtakes(s.rows, j, i);
        }
      }
    }
  }

  lemma SentLater(s: State, t: State, b: nat)
    requires s.sent <= t.sent && |s.sent| <= b < |t.sent|
    requires forall a, b :: 0 <= a < b < |t.sent| ==> t.sent[a] != t.sent[b]
    ensures t.sent[b] !in s.sent
  {
    forall a | 0 <= a < |s.sent| ensures s.sent[a] != t.sent[b] {
      assert s.sent[a] == t.sent[a];
    }
  }
}
