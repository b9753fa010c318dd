/** The dispatch engine: offers, the atomic claim, and the match it leads to. */
module Matching {
  import opened Common
  import opened RideStateMachine
  import opened Dispatch
  import DispatchClaim
  import opened World
  import Rides
  import Sorting

  const POLL_INTERVAL_MS := 500

  datatype Candidate = Candidate(driver: DriverId, rating: real)

  datatype Scored = Scored(driver: DriverId, score: real)

  /** Forty points per rating star, and up to sixty for standing early in the list. */
  function Score(c: Candidate, idx: nat): real {
    c.rating * 40.0 + (if idx == 0 then 60.0 else if 60 - idx * 10 < 0 then 0.0 else (60 - idx * 10) as real)
  }

  function Scores(cs: seq<Candidate>, from: nat): seq<Scored> {
    if cs == [] then [] else [Scored(cs[0].driver, Score(cs[0], from))] + Scores(cs[1..], from + 1)
  }

  function Descending(): Scored -> real {
    (s: Scored) => -s.score
  }

  function Ranked(cs: seq<Candidate>): seq<Scored> {
    Sorting.Sort(Scores(cs, 0), Descending())
  }

  function Cut(s: seq<Scored>, n: nat): nat {
    if n < |s| then n else |s|
  }

  /** The candidates that get an offer: the best `n`, best first. */
  function Top(cs: seq<Candidate>, n: nat): seq<Scored> {
    Ranked(cs)[..Cut(Ranked(cs), n)]
  }

  function PassedOver(cs: seq<Candidate>, n: nat): seq<Scored> {
    Ranked(cs)[Cut(Ranked(cs), n)..]
  }

  /** The scores, candidate by candidate: forty per star, and 60, 50, 40, 30, 20, 10 for the first six in the list. */
  lemma {:induction false} ScoresAre(cs: seq<Candidate>, from: nat, i: nat)
    requires i < |cs|
    ensures |Scores(cs, from)| == |cs| && Scores(cs, from)[i].driver == cs[i].driver
    ensures Scores(cs, from)[i].score - 40.0 * cs[i].rating ==
              if from + i < 6 then 60.0 - 10.0 * (from + i) as real else 0.0
  {
    if i > 0 {
      ScoresAre(cs[1..], from + 1, i - 1);
    } else if |cs| > 1 {
      ScoresAre(cs[1..], from + 1, 0);
    }
  }

  /** Every candidate is offered or passed over, and nobody passed over outscores anybody offered. */
  lemma TopIsBest(cs: seq<Candidate>, n: nat)
    ensures multiset(Top(cs, n) + PassedOver(cs, n)) == multiset(Scores(cs, 0))
    ensures |Top(cs, n)| == if n < |cs| then n else |cs|
    ensures forall i, j :: 0 <= i < |Top(cs, n)| && 0 <= j < |PassedOver(cs, n)| ==>
              Top(cs, n)[i].score >= PassedOver(cs, n)[j].score
  {
    var scored, ranked, k := Scores(cs, 0), Ranked(cs), Cut(Ranked(cs), n);
    Sorting.SortPermutes(scored, Descending());
    Sorting.SortSorts(scored, Descending());
    assert ranked[..k] + ranked[k..] == ranked;
    ScoresLength(cs, 0);
    forall i, j | 0 <= i < k && 0 <= j < |ranked| - k
      ensures ranked[..k][i].score >= ranked[k..][j].score
    {
      assert Descending()(ranked[i]) <= Descending()(ranked[k + j]);
    }
  }

  lemma {:induction false} ScoresLength(cs: seq<Candidate>, from: nat)
    ensures |Scores(cs, from)| == |cs|
  {
    if cs != [] {
      ScoresLength(cs[1..], from + 1);
    }
  }

  lemma AssignedStays(s: State, a: Action, id: RideId, d: DriverId)
    requires DispatchClaim.ClaimInv(s) && id in s.db.rows && s.db.rows[id].driver == Some(d)
    ensures id in Next(s, a).db.rows && Next(s, a).db.rows[id].driver == Some(d)
  {
    OneTransactionPerChange(s, a);
    DispatchClaim.DriverAfter(s, a, id);
    DispatchClaim.WriterRepeats(s, a);
  }

  lemma CommitAssigns(s: State, a: Action, id: RideId, d: DriverId, at: Time)
    requires ChangeOf(s, a).Updated? && ChangeOf(s, a).id == id && ChangeOf(s, a).patch == Accept(d, at)
    ensures id in Next(s, a).db.rows && Next(s, a).db.rows[id].driver == Some(d)
  {
    OneTransactionPerChange(s, a);
  }

  /** A driver who committed the ACCEPTED update is the ride's driver, whatever happens later. */
  lemma {:induction false} AssignedForGood(acts: seq<Action>, pid: Pid, id: RideId, d: DriverId, at: Time)
    requires DispatchClaim.TimelyRun(Init(), acts)
    requires (id, Accept(d, at)) in Commits(acts, pid)
    ensures id in Run(Init(), acts).db.rows && Run(Init(), acts).db.rows[id].driver == Some(d)
  {
    var n := |acts| - 1;
    var s := Run(Init(), acts[..n]);
    if (id, Accept(d, at)) in Commits(acts[..n], pid) {
      DispatchClaim.TimelyPrefix(Init(), acts, n);
      AssignedForGood(acts[..n], pid, id, d, at);
      DispatchClaim.AlwaysClaimInv(acts[..n]);
      AssignedStays(s, acts[n], id, d);
    } else {
      CommitAssigns(s, acts[n], id, d, at);
    }
  }

  /** At some point in between the claim key was absent. */
  ghost predicate FreeBetween(acts: seq<Action>, before: nat, after: nat, id: RideId) {
    exists n: nat :: before < n <= after && AbsentAt(acts, n, id)
  }

  lemma FreeBetweenKept(acts: seq<Action>, acts': seq<Action>, before: nat, after: nat, id: RideId)
    requires FreeBetween(acts, before, after, id) && acts <= acts'
    ensures FreeBetween(acts', before, after, id)
  {
    var n: nat :| before < n <= after && AbsentAt(acts, n, id);
    AbsentKept(acts, acts', n, id);
  }

  /**
   Process `pid` has sent these drivers their offers, one after the other, at these points from `from` on; unless
   hedged, every one but the first only after the claim key was seen to be absent since the one before.
   */
  ghost predicate OfferedAt(
    acts: seq<Action>, pid: Pid, id: RideId, sent: seq<Scored>, times: seq<nat>, from: nat, hedged: bool)
  {
    && |times| == |sent|
    && (forall k :: 0 <= k < |times| ==>
          from <= times[k] < |acts| && acts[times[k]] == Dispatch.Offer(pid, sent[k].driver))
    && (forall j, k :: 0 <= j < k < |times| ==> times[j] < times[k])
    && (!hedged ==> forall j, k :: 0 <= j && k == j + 1 < |times| ==> FreeBetween(acts, times[j], times[k], id))
  }

  /** The same, guarded, so that only proofs that ask for it look into it. */
  ghost predicate Offered(
    acts: seq<Action>, pid: Pid, id: RideId, sent: seq<Scored>, times: seq<nat>, from: nat, hedged: bool)
  {
    forall guard: nat :: Look(guard) ==> OfferedAt(acts, pid, id, sent, times, from, hedged)
  }

  lemma NoOffers(acts: seq<Action>, pid: Pid, id: RideId, from: nat, hedged: bool)
    ensures Offered(acts, pid, id, [], [], from, hedged)
  {
  }

  lemma OfferedKept(
    acts: seq<Action>, acts': seq<Action>, pid: Pid, id: RideId, sent: seq<Scored>, times: seq<nat>, from: nat,
    hedged: bool)
    requires Offered(acts, pid, id, sent, times, from, hedged) && acts <= acts'
    ensures Offered(acts', pid, id, sent, times, from, hedged)
  {
    assert Look(0);
    forall j, k | !hedged && 0 <= j && k == j + 1 < |times| ensures FreeBetween(acts', times[j], times[k], id) {
      FreeBetweenKept(acts, acts', times[j], times[k], id);
    }
  }

  /** One more offer; `free` is when the key was last seen to be absent. */
  lemma OneMoreOffer(
    acts: seq<Action>, acts': seq<Action>, pid: Pid, id: RideId, sent: seq<Scored>, times: seq<nat>, from: nat,
    hedged: bool, next: Scored, free: nat)
    requires Offered(acts, pid, id, sent, times, from, hedged) && from <= |acts| < |acts'| && acts <= acts'
    requires acts'[|acts'| - 1] == Dispatch.Offer(pid, next.driver)
    requires !hedged && times != [] ==> times[|times| - 1] < free <= |acts| && AbsentAt(acts, free, id)
    ensures Offered(acts', pid, id, sent + [next], times + [|acts'| - 1], from, hedged)
  {
    var more := times + [|acts'| - 1];
    OfferedKept(acts, acts', pid, id, sent, times, from, hedged);
    assert Look(0);
    forall j, k | !hedged && 0 <= j && k == j + 1 < |more| ensures FreeBetween(acts', more[j], more[k], id) {
      if k == |times| {
        AbsentKept(acts, acts', free, id);
      } else {
        assert FreeBetween(acts', times[j], times[k], id);
      }
    }
  }

  predicate FinalizeOutcome(
    c: seq<(RideId, Patch)>, c': seq<(RideId, Patch)>, id: RideId, d: DriverId, now: Time, won: bool)
  {
    if won then c' == c + [(id, Accept(d, now))] || c' == c + [(id, Match(d))] + [(id, Accept(d, now))]
    else c' == c || c' == c + [(id, Match(d))]
  }

  /**
   How a matching job went: the offers went out at `offers`, before the `sent`-th action; `polls` found the claim key
   absent; `claim` is whom it named at `claimed`; then the finalizing read at `read` found `finding`.
   */
  datatype Job = Job(
    offers: seq<nat>, sent: nat, polls: seq<nat>, claim: Option<DriverId>, claimed: nat,
    read: nat, finding: Option<Ride>, won: bool)

  predicate FoundRequested(found: Option<Ride>) {
    found.Some? && found.value.status == REQUESTED
  }

  /** What a job has committed: part of the match of the driver who claimed, or a cancellation if nobody did. */
  ghost predicate JobOutcome(
    c: seq<(RideId, Patch)>, c': seq<(RideId, Patch)>, id: RideId, job: Job, now: Time, r: Result<()>)
  {
    match job.claim
    case None => c' == c || (r.Ok? && c' == c + [(id, Cancel(NO_DRIVER_FOUND, 0, now))])
    case Some(d) =>
      && FinalizeOutcome(c, c', id, d, now, job.won) && (job.won ==> FoundOpen(job.finding))
      && (r.Ok? ==> (job.won <==> FoundOpen(job.finding)))
  }

  /** The call has assigned no driver. */
  predicate NoNewAccept(c: seq<(RideId, Patch)>, c': seq<(RideId, Patch)>) {
    c <= c' && forall k :: |c| <= k < |c'| ==> !c'[k].1.Accept?
  }

  /** A read that found the ride open. */
  predicate FoundOpen(found: Option<Ride>) {
    found.Some? && Open(found.value.status)
  }

  /** Why a match was not finalized: no such ride, a ride past matching, or a change under the call's hands. */
  predicate FinalizeRefused(before: Db, after: Db, id: RideId, e: Error) {
    match e
    case NotFound => id !in after.rows
    case BadRequest => id in after.rows && !Open(after.rows[id].status)
    case Conflict => Moved(before, after, id)
    case _ => false
  }

  /** Why a matching job failed; the update of the driver's own status may be another reason. */
  predicate JobRefused(before: Db, after: Db, id: RideId, e: Error, driverUpdates: bool) {
    FinalizeRefused(before, after, id, e) || (e == NotFound && !driverUpdates)
  }

  lemma FinalizeRefusedEarlier(a: Db, b: Db, c: Db, id: RideId, e: Error)
    requires Later(a, b, id) && FinalizeRefused(b, c, id, e)
    ensures FinalizeRefused(a, c, id, e)
  {
    if e == Conflict {
      MovedEarlier(a, b, c, id);
    }
  }

  lemma CancelRefusedEarlier(a: Db, b: Db, c: Db, id: RideId, e: Error)
    requires Later(a, b, id) && Rides.CancelRefused(b, c, id, e)
    ensures Rides.CancelRefused(a, c, id, e) && FinalizeRefused(a, c, id, e)
  {
    if e == Conflict {
      MovedEarlier(a, b, c, id);
    }
  }

  lemma TransitionRefused(a: Db, b: Db, id: RideId, to: Status, e: Error)
    requires Later(a, b, id) && Rides.Refused(a, b, id, to, e) && id in a.rows
    requires to == MATCHING || (to == ACCEPTED && a.rows[id].status != REQUESTED)
    ensures FinalizeRefused(a, b, id, e)
  {
    if e == BadRequest && to == MATCHING {
      assert AssertTransition(REQUESTED, MATCHING);
    }
  }

  /** Somebody held the claim key at this point. */
  ghost predicate Held(acts: seq<Action>, n: nat, id: RideId) {
    exists d :: HeldAt(acts, n, id, d)
  }

  /** The claim key was absent at all these points, which follow one another. */
  ghost predicate AbsentAtAll(acts: seq<Action>, polls: seq<nat>, id: RideId) {
    && (forall k :: 0 <= k < |polls| ==> AbsentAt(acts, polls[k], id))
    && (forall j, k :: 0 <= j < k < |polls| ==> polls[j] < polls[k])
  }

  /** From `from` on the key was absent at each poll, until it named the driver of whom the match was finalized. */
  ghost predicate Polled(history: seq<Action>, pid: Pid, id: RideId, from: nat, job: Job) {
    && AbsentAtAll(history, job.polls, id)
    && (forall k :: 0 <= k < |job.polls| ==> from < job.polls[k])
    && match job.claim
       case None => true
       case Some(d) =>
         && from < job.claimed && (forall k :: 0 <= k < |job.polls| ==> job.polls[k] < job.claimed)
         && HeldAt(history, job.claimed, id, d)
         && job.claimed < job.read && ReadBy(history, job.read, pid, Finalizing(id, d), job.finding)
  }

  lemma AbsentAtAllKept(acts: seq<Action>, acts': seq<Action>, polls: seq<nat>, id: RideId)
    requires AbsentAtAll(acts, polls, id) && acts <= acts'
    ensures AbsentAtAll(acts', polls, id) && forall k :: 0 <= k < |polls| ==> polls[k] <= |acts|
  {
    forall k | 0 <= k < |polls| ensures AbsentAt(acts', polls[k], id) {
      AbsentKept(acts, acts', polls[k], id);
    }
  }

  class MatchingService {
    const stores: Stores
    const rides: Rides.RidesService
    const maxCandidates: nat
    const offerTtlSeconds: nat
    const hedged: bool
    const sequentialWindowMs: nat

    constructor (stores: Stores, rides: Rides.RidesService, maxCandidates: nat, offerTtlSeconds: nat, hedged: bool,
                 sequentialWindowMs: nat)
      requires rides.stores == stores
      ensures this.stores == stores && this.rides == rides && this.maxCandidates == maxCandidates
      ensures this.offerTtlSeconds == offerTtlSeconds && this.hedged == hedged
      ensures this.sequentialWindowMs == sequentialWindowMs
    {
      this.stores, this.rides := stores, rides;
      this.maxCandidates, this.offerTtlSeconds := maxCandidates, offerTtlSeconds;
      this.hedged, this.sequentialWindowMs := hedged, sequentialWindowMs;
    }

    /**
     REQUESTED to MATCHING to ACCEPTED. It assigns the driver only if the ride is open, and whenever it
     returns at all, the ride is past matching; an error comes before the assignment, unless it is the
     update of the driver's own status that fails (`driverUpdates`). Its read is the `at`-th action of
     the history and finds `found`; that decides whether a call that returns has assigned the driver.
     */
    method FinalizeMatch(pid: Pid, id: RideId, d: DriverId, driverUpdates: bool, now: Time)
      returns (r: Result<()>, ghost won: bool, ghost at: nat, ghost found: Option<Ride>)
      requires rides.stores == stores && stores.Valid() && stores.At(pid, Finalizing(id, d))
      modifies stores
      ensures stores.Valid() && old(stores.history) <= stores.history && pid !in stores.procs
      ensures Later(old(stores.db), stores.db, id)
      ensures |old(stores.history)| < at && ReadBy(stores.history, at, pid, Finalizing(id, d), found)
      ensures r.Ok? ==> (won <==> FoundOpen(found))
      ensures won ==> FoundOpen(found)
      ensures found.None? ==> r == Err(NotFound)
      ensures found.Some? && !FoundOpen(found) ==> r == Ok(())
      ensures r.Ok? || won ==> id in stores.db.rows && !Open(stores.db.rows[id].status)
      ensures won && id in old(stores.db.rows) ==> Open(old(stores.db.rows[id].status))
      ensures FinalizeOutcome(old(stores.done)(pid), stores.done(pid), id, d, now, won)
      ensures r.Ok? && !won ==> stores.done(pid) == old(stores.done)(pid)
      ensures won ==> r == if driverUpdates then Ok(()) else Err(NotFound)
      ensures r.Err? && !won ==> FinalizeRefused(old(stores.db), stores.db, id, r.error)
      ensures stores.Quiet() && id in old(stores.db.rows) ==>
                if Open(old(stores.db.rows[id].status)) then won
                else r == Ok(()) && stores.db == old(stores.db) && stores.claims == old(stores.claims)
    {
      var ride := stores.ReadRide(pid, id, now, Rides.NoPrice());
      ghost var read, soFar := stores.db, stores.history;
      at, found := |soFar|, ride;
      r, won := FinishMatch(pid, id, d, ride, driverUpdates, now);
      ReadKept(soFar, stores.history, at, pid, Finalizing(id, d), found);
      LaterOn(old(stores.db), read, stores.db, id);
      if r.Err? && !won {
        FinalizeRefusedEarlier(old(stores.db), read, stores.db, id, r.error);
      }
    }

    /** The rest of it, once the ride has been read. */
    method FinishMatch(pid: Pid, id: RideId, d: DriverId, ride: Option<Ride>, driverUpdates: bool, now: Time)
      returns (r: Result<()>, ghost won: bool)
      requires rides.stores == stores && stores.Valid() && ride == Lookup(stores.db, id)
      requires if FoundOpen(ride)
               then stores.At(pid, Moving(id, if ride.value.status == REQUESTED then Match(d) else Accept(d, now)))
               else pid !in stores.procs
      modifies stores
      ensures stores.Valid() && old(stores.history) <= stores.history && pid !in stores.procs
      ensures Later(old(stores.db), stores.db, id)
      ensures won ==> FoundOpen(ride) && r == if driverUpdates then Ok(()) else Err(NotFound)
      ensures r.Ok? && !won ==> ride.Some? && !FoundOpen(ride) && stores.done(pid) == old(stores.done)(pid)
      ensures ride.None? ==> r == Err(NotFound)
      ensures ride.Some? && !FoundOpen(ride) ==> r == Ok(())
      ensures r.Ok? || won ==> id in stores.db.rows && !Open(stores.db.rows[id].status)
      ensures FinalizeOutcome(old(stores.done)(pid), stores.done(pid), id, d, now, won)
      ensures r.Err? && !won ==> FinalizeRefused(old(stores.db), stores.db, id, r.error)
      ensures stores.Quiet() && FoundOpen(ride) ==> won
      ensures !FoundOpen(ride) ==> stores.db == old(stores.db) && stores.claims == old(stores.claims)
    {
      if ride.None? {
        return Err(NotFound), false;
      }
      if !Open(ride.value.status) {
        return Ok(()), false;
      }
      if ride.value.status == REQUESTED {
        r, won := MatchThenAccept(pid, id, d, driverUpdates, now);
      } else {
        r, won := AcceptAndRelease(pid, id, d, driverUpdates, now);
      }
    }

    method MatchThenAccept(pid: Pid, id: RideId, d: DriverId, driverUpdates: bool, now: Time)
      returns (r: Result<()>, ghost won: bool)
      requires rides.stores == stores && stores.Valid() && stores.At(pid, Moving(id, Match(d)))
      requires id in stores.db.rows && stores.db.rows[id].status == REQUESTED
      modifies stores
      ensures stores.Valid() && old(stores.history) <= stores.history && pid !in stores.procs
      ensures Later(old(stores.db), stores.db, id)
      ensures won ==> id in stores.db.rows && !Open(stores.db.rows[id].status)
      ensures var c := old(stores.done)(pid);
              var c' := stores.done(pid);
              if won then c' == c + [(id, Match(d))] + [(id, Accept(d, now))] else c' == c || c' == c + [(id, Match(d))]
      ensures r == (if driverUpdates then Ok(()) else Err(NotFound)) || !won
      ensures r.Ok? ==> won
      ensures r.Err? && !won ==> FinalizeRefused(old(stores.db), stores.db, id, r.error)
      ensures stores.Quiet() ==> won
    {
      var matching := rides.Transition(pid, id, Match(d), now);
      ghost var matched := stores.db;
      if matching.Err? {
        TransitionRefused(old(stores.db), stores.db, id, MATCHING, matching.error);
        return Err(matching.error), false;
      }
      r, won := AcceptAndRelease(pid, id, d, driverUpdates, now);
      LaterOn(old(stores.db), matched, stores.db, id);
      if r.Err? && !won {
        FinalizeRefusedEarlier(old(stores.db), matched, stores.db, id, r.error);
      }
    }

    method AcceptAndRelease(pid: Pid, id: RideId, d: DriverId, driverUpdates: bool, now: Time)
      returns (r: Result<()>, ghost won: bool)
      requires rides.stores == stores && stores.Valid() && stores.At(pid, Moving(id, Accept(d, now)))
      requires id in stores.db.rows && stores.db.rows[id].status != REQUESTED
      modifies stores
      ensures stores.Valid() && old(stores.history) <= stores.history && pid !in stores.procs
      ensures Later(old(stores.db), stores.db, id)
      ensures won ==> id in stores.db.rows && !Open(stores.db.rows[id].status)
      ensures stores.done(pid) == old(stores.done)(pid) + if won then [(id, Accept(d, now))] else []
      ensures r == (if driverUpdates then Ok(()) else Err(NotFound)) || !won
      ensures r.Ok? ==> won
      ensures r.Err? && !won ==> FinalizeRefused(old(stores.db), stores.db, id, r.error)
      ensures stores.Quiet() && old(stores.db.rows[id].status) == MATCHING ==> won
    {
      var accepted := rides.Transition(pid, id, Accept(d, now), now);
      ghost var written := stores.db;
      if accepted.Err? {
        TransitionRefused(old(stores.db), stores.db, id, ACCEPTED, accepted.error);
        return Err(accepted.error), false;
      }
      if !driverUpdates {
        stores.Abort(pid, id);
        LaterOn(old(stores.db), written, stores.db, id);
        return Err(NotFound), true;
      }
      stores.DeleteClaim(pid, id, d);
      LaterOn(old(stores.db), written, stores.db, id);
      r, won := Ok(()), true;
    }

    /** The claim: the offer must be there and the key free; then the ride is this driver's to finalize. */
    method ClaimRide(pid: Pid, id: RideId, d: DriverId) returns (r: Result<bool>)
      requires stores.Valid() && pid !in stores.procs
      modifies stores
      ensures stores.Valid() && old(stores.history) <= stores.history && Later(old(stores.db), stores.db, id)
      ensures stores.done(pid) == old(stores.done)(pid)
      ensures match r
              case Ok(true) => stores.At(pid, Finalizing(id, d))
              case Ok(false) => pid !in stores.procs && id in stores.claims
              case Err(e) => pid !in stores.procs && e == BadRequest && (id, d) !in stores.offers
      ensures stores.Quiet() ==>
                && stores.db == old(stores.db)
                && (r == Ok(true) <==> (id, d) in old(stores.offers) && id !in old(stores.claims))
                && (r == Ok(true) ==> stores.claims == old(stores.claims)[id := d])
    {
      stores.Launched(pid, Answering(id, d));
      var offer := stores.GetOffer(pid, id, d);
      ghost var found := stores.db;
      if !offer {
        return Err(BadRequest);
      }
      var claimed := TakeClaim(pid, id, d);
      LaterOn(old(stores.db), found, stores.db, id);
      r := Ok(claimed);
    }

    method TakeClaim(pid: Pid, id: RideId, d: DriverId) returns (claimed: bool)
      requires stores.Valid() && stores.At(pid, Claiming(id, d))
      modifies stores
      ensures stores.Valid() && old(stores.history) <= stores.history && Later(old(stores.db), stores.db, id)
      ensures stores.done(pid) == old(stores.done)(pid)
      ensures if claimed then stores.At(pid, Finalizing(id, d)) else pid !in stores.procs && id in stores.claims
      ensures stores.Quiet() ==>
                && stores.db == old(stores.db) && (claimed <==> id !in old(stores.claims))
                && (claimed ==> stores.claims == old(stores.claims)[id := d])
    {
      claimed := stores.SetClaim(pid, id, d);
      ghost var taken := stores.db;
      if claimed {
        stores.DeleteOffer(pid, id, d);
        LaterOn(old(stores.db), taken, stores.db, id);
      }
    }

    /**
     A driver answers an offer. An answer `true` says that the ride is past matching; this driver got it
     (`matched`) exactly if it was open when the match was finalized: the finalizing read is the `at`-th
     action of the history, and it found `found`.
     */
    method HandleDriverResponse(pid: Pid, id: RideId, d: DriverId, accepted: bool, driverUpdates: bool, now: Time)
      returns (r: Result<bool>, ghost matched: bool, ghost at: nat, ghost found: Option<Ride>)
      requires rides.stores == stores && stores.Valid() && pid !in stores.procs
      modifies stores
      ensures stores.Valid() && old(stores.history) <= stores.history && pid !in stores.procs
      ensures !accepted ==> r in {Ok(false), Err(BadRequest)} && (id, d) !in stores.offers && !matched
      ensures accepted && r == Ok(false) ==> id in stores.claims && !matched
      ensures r == Ok(true) || matched ==>
                && |old(stores.history)| < at && ReadBy(stores.history, at, pid, Finalizing(id, d), found)
                && (matched <==> FoundOpen(found))
      ensures found.Some? && !FoundOpen(found) ==> r == Ok(true)
      ensures r == Ok(true) ==> id in stores.db.rows && !Open(stores.db.rows[id].status)
      ensures matched ==> accepted && r == if driverUpdates then Ok(true) else Err(NotFound)
      ensures matched && id in old(stores.db.rows) ==> Open(old(stores.db.rows[id].status))
      ensures r.Err? && !matched ==>
                (r.error == BadRequest && (id, d) !in stores.offers)
                || FinalizeRefused(old(stores.db), stores.db, id, r.error)
      ensures if matched then (id, Accept(d, now)) in stores.done(pid)
              else NoNewAccept(old(stores.done)(pid), stores.done(pid))
      ensures stores.Quiet() && accepted && driverUpdates && id in old(stores.db.rows)
              && (id, d) in old(stores.offers) && id !in old(stores.claims) ==>
                && r == Ok(true) && (matched <==> Open(old(stores.db.rows[id].status)))
                && (!matched ==> stores.db == old(stores.db) && stores.claims == old(stores.claims)[id := d])
    {
      matched, at, found := false, 0, None;
      if !accepted {
        r := Decline(pid, id, d);
        return;
      }
      r := ClaimRide(pid, id, d);
      ghost var claimed := stores.db;
      if r == Ok(true) {
        var done;
        done, matched, at, found := FinalizeMatch(pid, id, d, driverUpdates, now);
        r := if done.Err? then Err(done.error) else Ok(true);
        if r.Err? && !matched {
          FinalizeRefusedEarlier(old(stores.db), claimed, stores.db, id, done.error);
        }
      }
    }

    method Decline(pid: Pid, id: RideId, d: DriverId) returns (r: Result<bool>)
      requires stores.Valid() && pid !in stores.procs
      modifies stores
      ensures stores.Valid() && old(stores.history) <= stores.history && pid !in stores.procs
      ensures r in {Ok(false), Err(BadRequest)} && (id, d) !in stores.offers
      ensures stores.done(pid) == old(stores.done)(pid)
    {
      var offer := stores.PeekOffer(pid, id, d);
      if !offer {
        return Err(BadRequest);
      }
      stores.DropOffer(pid, id, d);
      r := Ok(false);
    }

    /** The driver whose acceptance a call committed is the one in the row (if no claim expired untimely). */
    lemma MatchedIsAssigned(pid: Pid, id: RideId, d: DriverId, now: Time)
      requires stores.Valid() && (id, Accept(d, now)) in stores.done(pid)
      requires DispatchClaim.TimelyRun(Init(), stores.history)
      ensures id in stores.db.rows && stores.db.rows[id].driver == Some(d)
    {
      Explained(stores.history, stores.View(), stores.done);
      AssignedForGood(stores.history, pid, id, d, now);
    }

    /**
     Poll the claim key every 500 ms until it is there or the time is up; `polls` are the points of the
     history at which it was found absent.
     */
    method WaitForClaim(pid: Pid, id: RideId, timeoutMs: nat) returns (claim: Option<DriverId>, ghost polls: seq<nat>)
      requires stores.Valid() && stores.At(pid, Waiting(id))
      modifies stores
      ensures stores.Valid() && old(stores.history) <= stores.history && Later(old(stores.db), stores.db, id)
      ensures match claim
              case Some(d) =>
                && stores.At(pid, Finalizing(id, d)) && HeldAt(stores.history, |stores.history|, id, d)
                && |old(stores.history)| < |stores.history|
                && forall k :: 0 <= k < |polls| ==> polls[k] < |stores.history|
              case None => stores.At(pid, Waiting(id)) && timeoutMs <= 500 * |polls|
      ensures 500 * |polls| < timeoutMs + 500 && AbsentAtAll(stores.history, polls, id)
      ensures forall k :: 0 <= k < |polls| ==> |old(stores.history)| < polls[k]
      ensures stores.done(pid) == old(stores.done)(pid)
    {
      claim, polls := None, [];
      var waited := 0;
      while waited < timeoutMs
        invariant stores.Valid() && old(stores.history) <= stores.history && Later(old(stores.db), stores.db, id)
        invariant stores.At(pid, Waiting(id)) && stores.done(pid) == old(stores.done)(pid)
        invariant claim == None && waited == |polls| * POLL_INTERVAL_MS && waited < timeoutMs + POLL_INTERVAL_MS
        invariant AbsentAtAll(stores.history, polls, id)
        invariant forall k :: 0 <= k < |polls| ==> |old(stores.history)| < polls[k]
        decreases timeoutMs - waited
      {
        ghost var history, db := stores.history, stores.db;
        claim := stores.GetClaim(pid, id);
        LaterOn(old(stores.db), db, stores.db, id);
        AbsentAtAllKept(history, stores.history, polls, id);
        if claim.Some? {
          return;
        }
        polls := polls + [|stores.history|];
        waited := waited + POLL_INTERVAL_MS;
      }
    }

    /**
     Cancel the ride for want of a driver if it is still open when read; a failed cancel is an error of
     the job.
     */
    method HandleNoDrivers(pid: Pid, id: RideId, now: Time) returns (r: Result<()>)
      requires rides.stores == stores && stores.Valid() && stores.At(pid, Stranded(id))
      modifies stores
      ensures stores.Valid() && old(stores.history) <= stores.history && pid !in stores.procs
      ensures Later(old(stores.db), stores.db, id)
      ensures r.Ok? ==> id in stores.db.rows && !Open(stores.db.rows[id].status)
      ensures r.Err? ==> Rides.CancelRefused(old(stores.db), stores.db, id, r.error)
      ensures var c := old(stores.done)(pid);
              var c' := stores.done(pid);
              || c' == c
              || (r.Ok? && c' == c + [(id, Cancel(NO_DRIVER_FOUND, 0, now))]
                  && (id in old(stores.db.rows) ==> Open(old(stores.db.rows[id].status))))
    {
      var ride := stores.ReadRide(pid, id, now, Rides.NoPrice());
      if ride.None? {
        return Err(NotFound);
      }
      ghost var read := stores.db;
      if Open(ride.value.status) {
        var cancelled := rides.CancelLaunched(pid, id, NO_DRIVER_FOUND, BACKEND, now);
        LaterOn(old(stores.db), read, stores.db, id);
        if cancelled.Err? {
          CancelRefusedEarlier(old(stores.db), read, stores.db, id, cancelled.error);
          return Err(cancelled.error);
        }
      }
      r := Ok(());
    }

    /** In sequential mode, whether somebody has claimed the ride meanwhile. */
    method ClaimedMeanwhile(pid: Pid, id: RideId) returns (yes: bool)
      requires stores.Valid() && stores.At(pid, Waiting(id))
      modifies stores
      ensures stores.Valid() && old(stores.history) <= stores.history && stores.At(pid, Waiting(id))
      ensures stores.done(pid) == old(stores.done)(pid) && Later(old(stores.db), stores.db, id)
      ensures yes ==> !hedged && Held(stores.history, |stores.history|, id)
      ensures !yes && !hedged ==> AbsentAt(stores.history, |stores.history|, id)
    {
      yes := false;
      if !hedged {
        yes := stores.PeekClaim(pid, id);
      }
    }

    /** One offer, and then the look at the claim; `free` is when the key was last seen to be absent. */
    method SendOffer(
      pid: Pid, id: RideId, next: Scored, ghost sent: seq<Scored>, ghost times: seq<nat>, ghost from: nat,
      ghost free: nat) returns (claimed: bool, ghost at: nat)
      requires stores.Valid() && stores.At(pid, Waiting(id)) && from <= |stores.history|
      requires Offered(stores.history, pid, id, sent, times, from, hedged)
      requires SeenFree(stores.history, id, times, free)
      modifies stores
      ensures stores.Valid() && old(stores.history) <= stores.history && stores.At(pid, Waiting(id))
      ensures stores.done(pid) == old(stores.done)(pid) && Later(old(stores.db), stores.db, id)
      ensures Offered(stores.history, pid, id, sent + [next], times + [at], from, hedged)
      ensures if claimed then !hedged && Held(stores.history, |stores.history|, id)
              else SeenFree(stores.history, id, times + [at], |stores.history|)
    {
      stores.SetOffer(pid, id, next.driver);
      at := |stores.history| - 1;
      ghost var soFar, db := stores.history, stores.db;
      OneMoreOffer(old(stores.history), soFar, pid, id, sent, times, from, hedged, next, free);
      claimed := ClaimedMeanwhile(pid, id);
      OfferedKept(soFar, stores.history, pid, id, sent + [next], times + [at], from, hedged);
      LaterOn(old(stores.db), db, stores.db, id);
    }

    /** In sequential mode the key was absent at this point, after the latest offer. */
    ghost predicate SeenFree(history: seq<Action>, id: RideId, times: seq<nat>, free: nat) {
      !hedged && times != [] ==> times[|times| - 1] < free && AbsentAt(history, free, id)
    }

    /**
     Offers to the chosen candidates: all at once, or one after the other until somebody claims; if not all
     of them get one, the ride was claimed.
     */
    method SendOffers(pid: Pid, id: RideId, top: seq<Scored>) returns (sent: seq<Scored>, ghost times: seq<nat>)
      requires stores.Valid() && stores.At(pid, Waiting(id))
      modifies stores
      ensures stores.Valid() && old(stores.history) <= stores.history && stores.At(pid, Waiting(id))
      ensures stores.done(pid) == old(stores.done)(pid) && Later(old(stores.db), stores.db, id)
      ensures sent <= top && (hedged ==> sent == top) && (top != [] ==> sent != []) && |times| == |sent|
      ensures sent != top ==> Held(stores.history, |stores.history|, id)
      ensures Offered(stores.history, pid, id, sent, times, |old(stores.history)|, hedged)
    {
      ghost var from: nat, free: nat, at: nat := |stores.history|, 0, 0;
      var i := 0;
      sent, times := [], [];
      NoOffers(stores.history, pid, id, from, hedged);
      while i < |top|
        invariant stores.Valid() && old(stores.history) <= stores.history && stores.At(pid, Waiting(id))
        invariant stores.done(pid) == old(stores.done)(pid) && Later(old(stores.db), stores.db, id)
        invariant 0 <= i <= |top| && sent == top[..i] && |times| == i
        invariant Offered(stores.history, pid, id, sent, times, from, hedged)
        invariant SeenFree(stores.history, id, times, free)
      {
        ghost var db := stores.db;
        var claimed;
        claimed, at := SendOffer(pid, id, top[i], sent, times, from, free);
        LaterOn(old(stores.db), db, stores.db, id);
        i := i + 1;
        sent, times, free := top[..i], times + [at], |stores.history|;
        if claimed {
          return;
        }
      }
    }

    function WaitMs(): nat {
      if hedged then offerTtlSeconds * 1000 + 5000
      else (if maxCandidates * sequentialWindowMs < offerTtlSeconds * 1000
            then maxCandidates * sequentialWindowMs else offerTtlSeconds * 1000) + 5000
    }

    /** The time a job waits for a claim: five seconds more than the offers live, or than all windows take. */
    predicate WaitedFor(polls: nat) {
      var windows, ttl := maxCandidates * sequentialWindowMs, 1000 * offerTtlSeconds;
      var wait := 5000 + if hedged || ttl <= windows then ttl else windows;
      wait <= 500 * polls < wait + 500
    }

    /**
     What a job did that found its ride requested and had candidates: after its read at `at` the best of them were
     sent offers, in sequential mode each only after the claim key was absent since the one before, and all of them
     unless somebody then held it; after these the key was looked at every half second, until it named a driver
     or the time was up.
     */
    ghost predicate Dispatched(
      history: seq<Action>, pid: Pid, id: RideId, candidates: seq<Candidate>, at: nat, job: Job)
    {
      var top := Top(candidates, maxCandidates);
      && at <= job.sent <= |history|
      && |job.offers| <= |top| && (hedged ==> |job.offers| == |top|) && (top != [] ==> job.offers != [])
      && (|job.offers| < |top| ==> Held(history, job.sent, id))
      && Offered(history[..job.sent], pid, id, top[..|job.offers|], job.offers, at, hedged)
      && Polled(history, pid, id, job.sent, job)
      && (job.claim.None? ==> WaitedFor(|job.polls|))
    }

    /**
     The matching job. Its read is the `at`-th action and finds `found`. Without a ride it fails; a ride past
     REQUESTED it leaves alone; without candidates it cancels the ride if that is still open. Otherwise it sends
     offers and polls for the claim, as `Dispatched` says; what it commits are steps of the match of the driver who
     claimed or, if nobody did in all that time, a cancellation. A job that ends without an error leaves its
     ride past REQUESTED.
     */
    method MatchRide(pid: Pid, id: RideId, candidates: seq<Candidate>, driverUpdates: bool, now: Time)
      returns (r: Result<()>, ghost at: nat, ghost found: Option<Ride>, ghost job: Job)
      requires rides.stores == stores && stores.Valid() && pid !in stores.procs
      modifies stores
      ensures stores.Valid() && old(stores.history) <= stores.history && pid !in stores.procs
      ensures |old(stores.history)| < at && ReadBy(stores.history, at, pid, Dispatch.Matching(id), found)
      ensures found.None? ==> r == Err(NotFound)
      ensures found.Some? && !FoundRequested(found) ==> r == Ok(())
      ensures !FoundRequested(found) ==> stores.done(pid) == old(stores.done)(pid)
      ensures FoundRequested(found) ==> JobOutcome(old(stores.done)(pid), stores.done(pid), id, job, now, r)
      ensures FoundRequested(found) && candidates == [] ==> job.claim.None?
      ensures FoundRequested(found) && candidates != [] ==>
                Dispatched(stores.history, pid, id, candidates, at, job)
      ensures r.Ok? ==> id in stores.db.rows && stores.db.rows[id].status != REQUESTED
      ensures r.Err? ==> JobRefused(old(stores.db), stores.db, id, r.error, driverUpdates)
    {
      job := Job([], 0, [], None, 0, 0, None, false);
      stores.Launched(pid, Dispatch.Matching(id));
      var ride := stores.ReadRide(pid, id, now, Rides.NoPrice());
      at, found := |stores.history|, ride;
      if ride.None? {
        r := Err(NotFound);
      } else if ride.value.status != REQUESTED {
        r := Ok(());
      } else {
        ghost var read, soFar := stores.db, stores.history;
        r, job := DispatchOffers(pid, id, candidates, driverUpdates, now);
        ReadKept(soFar, stores.history, at, pid, Dispatch.Matching(id), found);
        if r.Err? && FinalizeRefused(read, stores.db, id, r.error) {
          FinalizeRefusedEarlier(old(stores.db), read, stores.db, id, r.error);
        }
      }
    }

    method DispatchOffers(pid: Pid, id: RideId, candidates: seq<Candidate>, driverUpdates: bool, now: Time)
      returns (r: Result<()>, ghost job: Job)
      requires rides.stores == stores && stores.Valid() && stores.At(pid, Waiting(id))
      modifies stores
      ensures stores.Valid() && old(stores.history) <= stores.history && pid !in stores.procs
      ensures JobOutcome(old(stores.done)(pid), stores.done(pid), id, job, now, r)
      ensures candidates == [] ==> job.claim.None?
      ensures candidates != [] ==> Dispatched(stores.history, pid, id, candidates, |old(stores.history)|, job)
      ensures r.Ok? ==> id in stores.db.rows && !Open(stores.db.rows[id].status)
      ensures r.Err? ==> JobRefused(old(stores.db), stores.db, id, r.error, driverUpdates)
    {
      if candidates == [] {
        job := Job([], 0, [], None, 0, 0, None, false);
        r := GiveUpWaiting(pid, id, now);
      } else {
        r, job := OfferAndWait(pid, id, candidates, driverUpdates, now);
      }
    }

    /** Nobody will come: stop waiting and cancel. */
    method GiveUpWaiting(pid: Pid, id: RideId, now: Time) returns (r: Result<()>)
      requires rides.stores == stores && stores.Valid() && stores.At(pid, Waiting(id))
      modifies stores
      ensures stores.Valid() && old(stores.history) <= stores.history && pid !in stores.procs
      ensures r.Ok? ==> id in stores.db.rows && !Open(stores.db.rows[id].status)
      ensures r.Err? ==> FinalizeRefused(old(stores.db), stores.db, id, r.error)
      ensures var c := old(stores.done)(pid);
              var c' := stores.done(pid);
              c' == c || (r.Ok? && c' == c + [(id, Cancel(NO_DRIVER_FOUND, 0, now))])
    {
      stores.StopWaiting(pid, id);
      r := HandleNoDrivers(pid, id, now);
      if r.Err? {
        CancelRefusedEarlier(old(stores.db), old(stores.db), stores.db, id, r.error);
      }
    }

    method OfferAndWait(pid: Pid, id: RideId, candidates: seq<Candidate>, driverUpdates: bool, now: Time)
      returns (r: Result<()>, ghost job: Job)
      requires rides.stores == stores && stores.Valid() && stores.At(pid, Waiting(id))
      modifies stores
      ensures stores.Valid() && old(stores.history) <= stores.history && pid !in stores.procs
      ensures JobOutcome(old(stores.done)(pid), stores.done(pid), id, job, now, r)
      ensures Dispatched(stores.history, pid, id, candidates, |old(stores.history)|, job)
      ensures r.Ok? ==> id in stores.db.rows && !Open(stores.db.rows[id].status)
      ensures r.Err? ==> JobRefused(old(stores.db), stores.db, id, r.error, driverUpdates)
    {
      var sent;
      ghost var times;
      sent, times := SendOffers(pid, id, Top(candidates, maxCandidates));
      ghost var offered, soFar := stores.db, stores.history;
      ghost var waited;
      r, waited := AwaitMatch(pid, id, driverUpdates, now);
      job := waited.(sent := |soFar|, offers := times);
      assert Top(candidates, maxCandidates)[..|sent|] == sent && stores.history[..|soFar|] == soFar;
      if d :| HeldAt(soFar, |soFar|, id, d) {
        HeldKept(soFar, stores.history, |soFar|, id, d);
      }
      if r.Err? && FinalizeRefused(offered, stores.db, id, r.error) {
        FinalizeRefusedEarlier(old(stores.db), offered, stores.db, id, r.error);
      }
    }

    method AwaitMatch(pid: Pid, id: RideId, driverUpdates: bool, now: Time) returns (r: Result<()>, ghost job: Job)
      requires rides.stores == stores && stores.Valid() && stores.At(pid, Waiting(id))
      modifies stores
      ensures stores.Valid() && old(stores.history) <= stores.history && pid !in stores.procs
      ensures JobOutcome(old(stores.done)(pid), stores.done(pid), id, job, now, r)
      ensures Polled(stores.history, pid, id, |old(stores.history)|, job)
      ensures job.claim.None? ==> WaitedFor(|job.polls|)
      ensures r.Ok? ==> id in stores.db.rows && !Open(stores.db.rows[id].status)
      ensures r.Err? ==> JobRefused(old(stores.db), stores.db, id, r.error, driverUpdates)
    {
      var claim;
      ghost var polls;
      claim, polls := WaitForClaim(pid, id, WaitMs());
      ghost var waited, soFar := stores.db, stores.history;
      job := Job([], 0, polls, claim, |soFar|, 0, None, false);
      if claim.None? {
        r := GiveUpWaiting(pid, id, now);
      } else {
        ghost var won, read, finding;
        r, won, read, finding := FinalizeMatch(pid, id, claim.value, driverUpdates, now);
        job := job.(read := read, finding := finding, won := won);
        HeldKept(soFar, stores.history, |soFar|, id, claim.value);
      }
      AbsentAtAllKept(soFar, stores.history, polls, id);
      if r.Err? && FinalizeRefused(waited, stores.db, id, r.error) {
        FinalizeRefusedEarlier(old(stores.db), waited, stores.db, id, r.error);
      }
    }
  }
}
