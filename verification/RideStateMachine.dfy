/** The transition table of a ride, and the theory of the status sequences it allows. */
module RideStateMachine {

  datatype Status = REQUESTED | MATCHING | ACCEPTED | ARRIVED | IN_PROGRESS | COMPLETED | CANCELLED

  function Transitions(from: Status): seq<Status> {
    match from
    case REQUESTED => [MATCHING, CANCELLED]
    case MATCHING => [ACCEPTED, CANCELLED]
    case ACCEPTED => [ARRIVED, CANCELLED]
    case ARRIVED => [IN_PROGRESS, CANCELLED]
    case IN_PROGRESS => [COMPLETED, CANCELLED]
    case COMPLETED => []
    case CANCELLED => []
  }

  /** A status may always be rewritten by itself: the stutter is not an error. */
  predicate AssertTransition(from: Status, to: Status) {
    from == to || to in Transitions(from)
  }

  predicate CanCancel(status: Status) {
    CANCELLED in Transitions(status)
  }

  predicate IsTerminal(status: Status) {
    status == COMPLETED || status == CANCELLED
  }

  function Rank(status: Status): nat {
    match status
    case REQUESTED => 0
    case MATCHING => 1
    case ACCEPTED => 2
    case ARRIVED => 3
    case IN_PROGRESS => 4
    case COMPLETED => 5
    case CANCELLED => 5
  }

  /** Statuses in which no driver has been assigned yet. */
  predicate Open(status: Status) {
    status == REQUESTED || status == MATCHING
  }

  /** A history a ride may have: it starts REQUESTED and every entry is allowed after the one before. */
  predicate LegalTrace(t: seq<Status>) {
    && |t| > 0
    && t[0] == REQUESTED
    && forall i :: 0 < i < |t| ==> AssertTransition(t[i - 1], t[i])
  }

  lemma LegalAppend(t: seq<Status>, c: Status)
    requires LegalTrace(t) && AssertTransition(t[|t| - 1], c)
    ensures LegalTrace(t + [c])
  {
    var u := t + [c];
    forall i | 0 < i < |u| ensures AssertTransition(u[i - 1], u[i]) {
      if i < |t| {
        assert u[i - 1] == t[i - 1] && u[i] == t[i];
      }
    }
  }

  /** How often the status really changes along a history (stutters are not counted). */
  function Changes(t: seq<Status>): nat {
    if |t| < 2 then 0
    else Changes(t[..|t| - 1]) + if t[|t| - 2] == t[|t| - 1] then 0 else 1
  }

  lemma CanCancelIffNotTerminal(status: Status)
    ensures CanCancel(status) <==> !IsTerminal(status)
    ensures IsTerminal(status) <==> forall to :: AssertTransition(status, to) ==> to == status
  {
    if !IsTerminal(status) {
      assert AssertTransition(status, CANCELLED);
    }
  }

  /** Later statuses never rank lower, and equal ranks along a history mean equal statuses. */
  lemma {:induction false} TraceAscends(t: seq<Status>, i: nat, j: nat)
    requires LegalTrace(t) && i <= j < |t|
    ensures t[i] == t[j] || Rank(t[i]) < Rank(t[j])
    decreases j
  {
    if i < j {
      TraceAscends(t, i, j - 1);
      assert AssertTransition(t[j - 1], t[j]);
    }
  }

  /** A status is a version number: between two occurrences of it nothing else occurred. */
  lemma NoReturn(t: seq<Status>, i: nat, k: nat, j: nat)
    requires LegalTrace(t) && i <= k <= j < |t| && t[i] == t[j]
    ensures t[k] == t[i]
  {
    TraceAscends(t, i, k);
    TraceAscends(t, k, j);
  }

  /** A status is left at most once in the life of a ride. */
  lemma LeftOnce(t: seq<Status>, i: nat, j: nat)
    requires LegalTrace(t) && i + 1 < |t| && j + 1 < |t|
    requires t[i] == t[j] && t[i + 1] != t[i] && t[j + 1] != t[j]
    ensures i == j
  {
    if i < j {
      NoReturn(t, i, i + 1, j);
    } else if j < i {
      NoReturn(t, j, j + 1, i);
    }
  }

  /** However often a ride is written, its status changes at most five times. */
  lemma {:induction false} AtMostFiveChanges(t: seq<Status>)
    requires LegalTrace(t)
    ensures Changes(t) <= Rank(t[|t| - 1]) <= 5
  {
    if |t| > 1 {
      var s := t[..|t| - 1];
      AtMostFiveChanges(s);
      assert AssertTransition(t[|t| - 2], t[|t| - 1]);
      assert s[|s| - 1] == t[|t| - 2];
    }
  }

  /** The statuses a history must have gone through, given how far it got. */
  predicate Passed(s: Status, last: Status) {
    s == last || (last != CANCELLED && s != CANCELLED && Rank(s) <= Rank(last))
  }

  /** Unless it was cancelled, a ride visited every status up to the one it is in. */
  lemma {:induction false} NothingSkipped(t: seq<Status>, s: Status)
    requires LegalTrace(t) && Passed(s, t[|t| - 1])
    ensures s in t
  {
    var n := |t| - 1;
    if s != t[n] {
      assert n > 0;
      assert AssertTransition(t[n - 1], t[n]);
      var u := t[..n];
      assert u[n - 1] == t[n - 1];
      NothingSkipped(u, s);
      assert s in u;
    }
  }

  /** Some history leads from REQUESTED through `a` and later (or at once) to `b`. */
  ghost predicate Reaches(a: Status, b: Status) {
    exists t: seq<Status>, i: nat :: i < |t| && LegalTrace(t) && t[i] == a && t[|t| - 1] == b
  }

  /** The status that leads to `b` (any status but REQUESTED has one). */
  function Before(b: Status): Status {
    match b
    case REQUESTED => REQUESTED
    case MATCHING => REQUESTED
    case ACCEPTED => MATCHING
    case ARRIVED => ACCEPTED
    case IN_PROGRESS => ARRIVED
    case COMPLETED => IN_PROGRESS
    case CANCELLED => IN_PROGRESS
  }

  lemma ReachesOnward(a: Status, b: Status, c: Status)
    requires Reaches(a, b) && AssertTransition(b, c)
    ensures Reaches(a, c) && Reaches(c, c)
  {
    var t: seq<Status>, i: nat :| i < |t| && LegalTrace(t) && t[i] == a && t[|t| - 1] == b;
    var u := t + [c];
    LegalAppend(t, c);
    assert u[i] == a && u[|t|] == c && |u| - 1 == |t|;
  }

  lemma {:induction false} ReachesSelf(a: Status)
    ensures Reaches(a, a)
    decreases Rank(a)
  {
    if a == REQUESTED {
      var t := [REQUESTED];
      assert LegalTrace(t) && t[0] == a && t[|t| - 1] == a;
    } else {
      ReachesSelf(Before(a));
      ReachesOnward(Before(a), Before(a), a);
    }
  }

  lemma {:induction false} ReachesUp(a: Status, b: Status)
    requires Rank(a) < Rank(b)
    ensures Reaches(a, b)
    decreases Rank(b)
  {
    if a == Before(b) {
      ReachesSelf(a);
    } else {
      ReachesUp(a, Before(b));
    }
    ReachesOnward(a, Before(b), b);
  }

  /** Exactly which statuses are still ahead of a ride. */
  lemma ReachesIffRanksBelow(a: Status, b: Status)
    ensures Reaches(a, b) <==> a == b || Rank(a) < Rank(b)
  {
    if Reaches(a, b) {
      var t: seq<Status>, i: nat :| i < |t| && LegalTrace(t) && t[i] == a && t[|t| - 1] == b;
      TraceAscends(t, i, |t| - 1);
    }
    if a == b {
      ReachesSelf(a);
    } else if Rank(a) < Rank(b) {
      ReachesUp(a, b);
    }
  }
}
