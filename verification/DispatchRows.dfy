/** Where every column of a ride comes from, and what its events say of it, over all interleavings. */
module DispatchRows {
  import opened Common
  import opened RideStateMachine
  import opened Dispatch
  import opened DispatchLog

  /** The update of the ride that an action commits, if it does. */
  function Update(s: State, a: Action, id: RideId): seq<Patch> {
    var c := ChangeOf(s, a);
    if c.Updated? && c.id == id then [c.patch] else []
  }

  /** The updates of a ride that were committed, in commit order, whoever made them. */
  function Updates(acts: seq<Action>, id: RideId): seq<Patch> {
    if acts == [] then []
    else Updates(acts[..|acts| - 1], id) + Update(Run(Init(), acts[..|acts| - 1]), acts[|acts| - 1], id)
  }

  datatype Kind = MATCH | ACCEPT | ARRIVE | START | COMPLETE | CANCEL | RATE_RIDER | RATE_DRIVER

  /** The kind of an update; the rating a rider gives and the one a driver gives are different kinds. */
  function KindOf(p: Patch): Kind {
    match p
    case Match(_) => MATCH
    case Accept(_, _) => ACCEPT
    case Arrive(_) => ARRIVE
    case Start(_) => START
    case Complete(_, _) => COMPLETE
    case Cancel(_, _, _) => CANCEL
    case Rate(asRider, _) => if asRider then RATE_RIDER else RATE_DRIVER
  }

  /** The latest update of a kind. */
  function Newest(ups: seq<Patch>, kind: Kind): (p: Option<Patch>)
    ensures p.Some? ==> KindOf(p.value) == kind
  {
    if ups == [] then None
    else if KindOf(ups[|ups| - 1]) == kind then Some(ups[|ups| - 1])
    else Newest(ups[..|ups| - 1], kind)
  }

  /** The newest update of a kind, once `p` has been committed too. */
  function Newer(newest: Option<Patch>, p: Patch, kind: Kind): Option<Patch> {
    if KindOf(p) == kind then Some(p) else newest
  }

  lemma NewestSnoc(ups: seq<Patch>, p: Patch)
    ensures forall k :: Newest(ups + [p], k) == Newer(Newest(ups, k), p, k)
  {
    assert (ups + [p])[..|ups|] == ups;
  }

  /** Who drives, and how far the ride has come. */
  predicate ProgressWritten(r: Ride, accept: Option<Patch>, arrive: Option<Patch>, start: Option<Patch>)
    requires accept.Some? ==> accept.value.Accept?
    requires arrive.Some? ==> arrive.value.Arrive?
    requires start.Some? ==> start.value.Start?
  {
    && r.driver == (if accept.Some? then Some(accept.value.driver) else None)
    && r.acceptedAt == (if accept.Some? then Some(accept.value.at) else None)
    && r.arrivedAt == (if arrive.Some? then Some(arrive.value.at) else None)
    && r.startedAt == (if start.Some? then Some(start.value.at) else None)
  }

  /** How the ride ended. */
  predicate EndWritten(r: Ride, complete: Option<Patch>, cancel: Option<Patch>)
    requires complete.Some? ==> complete.value.Complete?
    requires cancel.Some? ==> cancel.value.Cancel?
  {
    && r.completedAt == (if complete.Some? then Some(complete.value.at) else None)
    && r.totalFare == (if complete.Some? then Some(complete.value.totalFare) else None)
    && r.cancelledAt == (if cancel.Some? then Some(cancel.value.at) else None)
    && r.reason == (if cancel.Some? then Some(cancel.value.reason) else None)
    && r.fee == (if cancel.Some? then cancel.value.fee else 0)
  }

  predicate RatingsWritten(r: Ride, byRider: Option<Patch>, byDriver: Option<Patch>)
    requires byRider.Some? ==> byRider.value.Rate?
    requires byDriver.Some? ==> byDriver.value.Rate?
  {
    && r.riderRating == (if byRider.Some? then Some(byRider.value.rating) else None)
    && r.driverRating == (if byDriver.Some? then Some(byDriver.value.rating) else None)
  }

  /** Every column has one kind of update that writes it, and holds what the latest of that kind wrote. */
  predicate Written(r: Ride, ups: seq<Patch>) {
    && r.status == (if ups == [] then REQUESTED else Target(ups[|ups| - 1]))
    && ProgressWritten(r, Newest(ups, ACCEPT), Newest(ups, ARRIVE), Newest(ups, START))
    && EndWritten(r, Newest(ups, COMPLETE), Newest(ups, CANCEL))
    && RatingsWritten(r, Newest(ups, RATE_RIDER), Newest(ups, RATE_DRIVER))
  }

  lemma ProgressAfter(r: Ride, accept: Option<Patch>, arrive: Option<Patch>, start: Option<Patch>, p: Patch)
    requires accept.Some? ==> accept.value.Accept?
    requires arrive.Some? ==> arrive.value.Arrive?
    requires start.Some? ==> start.value.Start?
    requires ProgressWritten(r, accept, arrive, start)
    ensures ProgressWritten(Patched(r, p), Newer(accept, p, ACCEPT), Newer(arrive, p, ARRIVE), Newer(start, p, START))
  {
  }

  lemma EndAfter(r: Ride, complete: Option<Patch>, cancel: Option<Patch>, p: Patch)
    requires complete.Some? ==> complete.value.Complete?
    requires cancel.Some? ==> cancel.value.Cancel?
    requires EndWritten(r, complete, cancel)
    ensures EndWritten(Patched(r, p), Newer(complete, p, COMPLETE), Newer(cancel, p, CANCEL))
  {
  }

  lemma RatingsAfter(r: Ride, byRider: Option<Patch>, byDriver: Option<Patch>, p: Patch)
    requires byRider.Some? ==> byRider.value.Rate?
    requires byDriver.Some? ==> byDriver.value.Rate?
    requires RatingsWritten(r, byRider, byDriver)
    ensures RatingsWritten(Patched(r, p), Newer(byRider, p, RATE_RIDER), Newer(byDriver, p, RATE_DRIVER))
  {
  }

  /** The same, with one more update still to be counted. */
  predicate WrittenWith(r: Ride, ups: seq<Patch>, p: Patch) {
    && r.status == Target(p)
    && ProgressWritten(r, Newer(Newest(ups, ACCEPT), p, ACCEPT), Newer(Newest(ups, ARRIVE), p, ARRIVE),
                       Newer(Newest(ups, START), p, START))
    && EndWritten(r, Newer(Newest(ups, COMPLETE), p, COMPLETE), Newer(Newest(ups, CANCEL), p, CANCEL))
    && RatingsWritten(r, Newer(Newest(ups, RATE_RIDER), p, RATE_RIDER),
                      Newer(Newest(ups, RATE_DRIVER), p, RATE_DRIVER))
  }

  lemma CountedToo(r: Ride, ups: seq<Patch>, p: Patch)
    requires WrittenWith(r, ups, p)
    ensures Written(r, ups + [p])
  {
    NewestSnoc(ups, p);
  }

  lemma PatchedWith(r: Ride, ups: seq<Patch>, p: Patch)
    requires Written(r, ups)
    ensures WrittenWith(Patched(r, p), ups, p)
  {
    ProgressAfter(r, Newest(ups, ACCEPT), Newest(ups, ARRIVE), Newest(ups, START), p);
    EndAfter(r, Newest(ups, COMPLETE), Newest(ups, CANCEL), p);
    RatingsAfter(r, Newest(ups, RATE_RIDER), Newest(ups, RATE_DRIVER), p);
  }

  /** The ride was requested by this rider, at this time, on these terms. */
  predicate Requested(acts: seq<Action>, id: RideId, r: Ride) {
    Create(id, r.rider, r.createdAt, r.terms) in acts
  }

  /** A row, if there is one, is what these updates wrote. */
  predicate RowWritten(db: Db, id: RideId, ups: seq<Patch>) {
    if id in db.rows then Written(db.rows[id], ups) else ups == []
  }

  lemma NextWritten(s: State, a: Action, id: RideId, ups: seq<Patch>)
    requires RowWritten(s.db, id, ups)
    ensures RowWritten(Next(s, a).db, id, ups + Update(s, a, id))
  {
    OneTransactionPerChange(s, a);
    var c := ChangeOf(s, a);
    if c.Updated? && c.id == id {
      PatchedWith(s.db.rows[id], ups, c.patch);
      CountedToo(Patched(s.db.rows[id], c.patch), ups, c.patch);
    } else {
      assert ups + Update(s, a, id) == ups;
    }
  }

  lemma NextRequested(s: State, a: Action, id: RideId)
    requires id in Next(s, a).db.rows
    ensures var r := Next(s, a).db.rows[id];
            if id in s.db.rows then SameLock(s.db.rows[id], r) else a == Create(id, r.rider, r.createdAt, r.terms)
  {
    OneTransactionPerChange(s, a);
  }

  lemma {:induction false} AlwaysWritten(acts: seq<Action>, id: RideId)
    ensures RowWritten(Run(Init(), acts).db, id, Updates(acts, id))
  {
    if acts != [] {
      AlwaysWritten(acts[..|acts| - 1], id);
      NextWritten(Run(Init(), acts[..|acts| - 1]), acts[|acts| - 1], id, Updates(acts[..|acts| - 1], id));
    }
  }

  lemma {:induction false} AlwaysRequested(acts: seq<Action>, id: RideId)
    requires id in Run(Init(), acts).db.rows
    ensures Requested(acts, id, Run(Init(), acts).db.rows[id])
  {
    var n := |acts| - 1;
    var s := Run(Init(), acts[..n]);
    NextRequested(s, acts[n], id);
    if id in s.db.rows {
      AlwaysRequested(acts[..n], id);
    }
  }

  /**
   In every run a row is the request it came from and its committed updates, nothing else: each column
   holds what the latest update of its kind wrote, and is empty if there was none.
   */
  lemma RowIsWhatWasWritten(acts: seq<Action>, id: RideId)
    requires id in Run(Init(), acts).db.rows
    ensures Written(Run(Init(), acts).db.rows[id], Updates(acts, id))
    ensures Requested(acts, id, Run(Init(), acts).db.rows[id])
  {
    AlwaysWritten(acts, id);
    AlwaysRequested(acts, id);
  }

  /**
   In every run, of every event: it has a fare exactly if it tells of a completed ride, a reason exactly if
   of a cancelled one, a fee only then and of fifty, no driver while the ride is open, and one from ACCEPTED on.
   */
  lemma EventColumns(acts: seq<Action>, n: nat)
    requires n < |Run(Init(), acts).db.log|
    ensures var e := Run(Init(), acts).db.log[n];
            && (e.totalFare.Some? <==> e.status == COMPLETED) && (e.totalFare.Some? ==> e.totalFare.value >= 0.0)
            && (e.reason.Some? <==> e.status == CANCELLED)
            && (e.fee == 0 || (e.fee == 50 && e.status == CANCELLED))
            && (e.status in {REQUESTED, MATCHING} ==> e.driver == None)
            && (e.status in {ACCEPTED, ARRIVED, IN_PROGRESS, COMPLETED} ==> e.driver.Some?)
  {
    var k := EventsAreSnapshots(acts, n);
    var e := Run(Init(), acts).db.log[n];
    StatusFixesMilestones(acts[..k], e.ride);
  }
}
