/** A stored counter whose lifetime is renewed by every increment, and what it really counts. */
module TtlCounter {
  import opened Common

  type Time = int  // seconds

  datatype Key = Absent | Present(value: nat, expiresAt: Time)

  /** An increment: when the value is read, and when it is stored with its new lifetime. */
  datatype Call = Call(read: Time, write: Time)

  function Count(k: Key, now: Time): nat {
    if k.Present? && now < k.expiresAt then k.value else 0
  }

  function Bump(k: Key, c: Call, window: nat): Key {
    Present(Count(k, c.read) + 1, c.write + window)
  }

  /** The key after these increments, one after the other. */
  function After(calls: seq<Call>, window: nat): Key {
    if calls == [] then Absent else Bump(After(calls[..|calls| - 1], window), calls[|calls| - 1], window)
  }

  /** One after the other. */
  predicate Ascending(calls: seq<Call>) {
    && (forall i :: 0 <= i < |calls| ==> calls[i].read <= calls[i].write)
    && (forall i, j :: 0 <= i < j < |calls| ==> calls[i].write <= calls[j].read)
  }

  /** The increment follows the one before it within the window. */
  predicate Follows(calls: seq<Call>, i: nat, window: nat)
    requires 0 < i < |calls|
  {
    calls[i].read - calls[i - 1].write < window
  }

  /** Length of the current burst: how many latest increments follow each other within the window. */
  function Burst(calls: seq<Call>, window: nat): nat {
    if |calls| < 2 then |calls|
    else if Follows(calls, |calls| - 1, window) then Burst(calls[..|calls| - 1], window) + 1
    else 1
  }

  /** Increments in the window that ends at `end`. */
  function InWindow(calls: seq<Call>, end: Time, window: nat): nat {
    if calls == [] then 0
    else InWindow(calls[..|calls| - 1], end, window) + if end - calls[|calls| - 1].write < window then 1 else 0
  }

  /** Increments in the window that ends with the latest one. */
  function Lately(calls: seq<Call>, window: nat): nat {
    if calls == [] then 0 else InWindow(calls, calls[|calls| - 1].read, window)
  }

  lemma {:induction false} CounterIsBurst(calls: seq<Call>, window: nat)
    requires calls != []
    ensures After(calls, window) == Present(Burst(calls, window), calls[|calls| - 1].write + window)
  {
    if |calls| > 1 {
      CounterIsBurst(calls[..|calls| - 1], window);
    }
  }

  lemma OneMoreCall(calls: seq<Call>, c: Call, window: nat)
    ensures After(calls + [c], window) == Bump(After(calls, window), c, window)
    ensures Bump(After(calls, window), c, window) == Present(Burst(calls + [c], window), c.write + window)
  {
    assert (calls + [c])[..|calls|] == calls;
    CounterIsBurst(calls + [c], window);
  }

  // ----- burst and window

  /** The last `n` increments all follow the ones before them within the window. */
  predicate Close(calls: seq<Call>, window: nat, n: nat) {
    n < |calls| && forall i :: |calls| - n <= i < |calls| ==> Follows(calls, i, window)
  }

  /** The increment `n` before the latest one is still in the window. */
  predicate Recent(calls: seq<Call>, window: nat, n: nat) {
    n < |calls| && calls[|calls| - 1].read - calls[|calls| - 1 - n].write < window
  }

  lemma {:induction false} BurstOver(calls: seq<Call>, window: nat, n: nat)
    ensures Burst(calls, window) > n <==> Close(calls, window, n)
  {
    if n > 0 && |calls| > 1 {
      var m := |calls| - 1;
      BurstOver(calls[..m], window, n - 1);
      assert forall i :: 0 < i < m ==> Follows(calls[..m], i, window) == Follows(calls, i, window);
      if Close(calls[..m], window, n - 1) && Follows(calls, m, window) {
        forall i | |calls| - n <= i < |calls| ensures Follows(calls, i, window) {
          assert i < m ==> Follows(calls[..m], i, window);
        }
      }
    }
  }

  lemma {:induction false} WindowOver(calls: seq<Call>, end: Time, window: nat, n: nat)
    requires Ascending(calls)
    ensures InWindow(calls, end, window) > n <==> n < |calls| && end - calls[|calls| - 1 - n].write < window
  {
    if calls != [] {
      var m := |calls| - 1;
      WindowOver(calls[..m], end, window, if n == 0 then 0 else n - 1);
      if n < m {
        assert calls[m - 1 - n].write <= calls[m - n].read <= calls[m - n].write <= calls[m].write;
      }
    }
  }

  /** What is still in the window was followed closely ever since. */
  lemma RecentIsClose(calls: seq<Call>, window: nat, n: nat)
    requires Ascending(calls) && Recent(calls, window, n)
    ensures Close(calls, window, n)
  {
    forall i | |calls| - n <= i < |calls| ensures Follows(calls, i, window) {
      var m := |calls| - 1;
      assert calls[i].read <= calls[m].read by {
        if i < m { assert calls[i].write <= calls[m].read; }
      }
      assert calls[m - n].write <= calls[i - 1].write by {
        if m - n < i - 1 { assert calls[m - n].write <= calls[i - 1].read; }
      }
    }
  }

  /** The counter is never below the number of increments in the sliding window. */
  lemma CounterCoversWindow(calls: seq<Call>, window: nat)
    requires Ascending(calls)
    ensures Lately(calls, window) <= Burst(calls, window)
  {
    var n := Lately(calls, window);
    if n > 0 {
      WindowOver(calls, calls[|calls| - 1].read, window, n - 1);
      RecentIsClose(calls, window, n - 1);
      BurstOver(calls, window, n - 1);
    }
  }

  /**
   Exactly when a limit on the counter says what a limit on the sliding window would: unless the last
   `limit` increments were close to each other, and the one before them is too old for the window.
   */
  lemma LimitsAgreeIff(calls: seq<Call>, window: nat, limit: int)
    requires Ascending(calls)
    ensures (Burst(calls, window) > limit <==> Lately(calls, window) > limit)
       <==> limit < 0 || !Close(calls, window, limit) || Recent(calls, window, limit)
  {
    if limit >= 0 {
      BurstOver(calls, window, limit);
      if calls != [] {
        WindowOver(calls, calls[|calls| - 1].read, window, limit);
        if Recent(calls, window, limit) {
          RecentIsClose(calls, window, limit);
        }
      }
    }
  }

  /** The counter is the window count exactly when the first increment of the burst is still in the window. */
  lemma CounterIsWindowIff(calls: seq<Call>, window: nat)
    requires Ascending(calls) && calls != []
    ensures 0 < Burst(calls, window) <= |calls|
    ensures Lately(calls, window) == Burst(calls, window) <==> Recent(calls, window, Burst(calls, window) - 1)
  {
    BurstOver(calls, window, 0);
    BurstOver(calls, window, |calls|);
    CounterCoversWindow(calls, window);
    WindowOver(calls, calls[|calls| - 1].read, window, Burst(calls, window) - 1);
  }

  /** Instantaneous increments `gap` apart. */
  predicate Spaced(calls: seq<Call>, gap: nat) {
    && (forall i :: 0 <= i < |calls| ==> calls[i].read == calls[i].write)
    && (forall i :: 0 < i < |calls| ==> calls[i].read == calls[i - 1].write + gap)
  }

  lemma {:induction false} SpacedAscends(calls: seq<Call>, gap: nat, i: nat, j: nat)
    requires Spaced(calls, gap) && i < j < |calls|
    ensures calls[i].write + gap <= calls[j].read
    decreases j
  {
    if i < j - 1 {
      SpacedAscends(calls, gap, i, j - 1);
      assert calls[j].read == calls[j - 1].write + gap;
    }
  }

  /**
   The counter can exceed the sliding window without bound: increments further apart than half a window
   but closer than a whole one are all counted, while the window never holds more than two.
   */
  lemma BurstOutrunsWindow(calls: seq<Call>, gap: nat, window: nat)
    requires Spaced(calls, gap) && |calls| > 1 && gap < window <= 2 * gap
    ensures Burst(calls, window) == |calls| && Lately(calls, window) == 2
  {
    var n := |calls|;
    forall i, j | 0 <= i < j < n ensures calls[i].write <= calls[j].read {
      SpacedAscends(calls, gap, i, j);
    }
    BurstOver(calls, window, n - 1);
    BurstOver(calls, window, n);
    WindowOver(calls, calls[n - 1].read, window, 1);
    WindowOver(calls, calls[n - 1].read, window, 2);
    if n > 2 {
      assert calls[n - 1].read == calls[n - 2].write + gap && calls[n - 2].read == calls[n - 3].write + gap;
    }
  }

  /** Keyed counters, as the surge demand counter and the duplicate-pickup counter use them. */
  class Counters {
    const window: nat
    const maxDuplicateRequests: int
    var keys: map<nat, Key>
    ghost var past: map<nat, seq<Call>>

    ghost predicate Valid()
      reads this
    {
      && keys.Keys == past.Keys
      && forall k :: k in keys ==> past[k] != [] && keys[k] == After(past[k], window)
    }

    ghost function Past(k: nat): seq<Call>
      reads this
    {
      if k in past then past[k] else []
    }

    constructor (window: nat, maxDuplicateRequests: int)
      ensures Valid() && this.window == window && this.maxDuplicateRequests == maxDuplicateRequests && past == map[]
    {
      this.window, this.maxDuplicateRequests, keys, past := window, maxDuplicateRequests, map[], map[];
    }

    /** Read the counter of a key, and store it one higher with the whole lifetime again. */
    method Increment(k: nat, now: Time, later: Time) returns (count: nat)
      requires Valid()
      modifies this
      ensures Valid() && past == old(past)[k := old(Past(k)) + [Call(now, later)]]
      ensures count == Burst(old(Past(k)) + [Call(now, later)], window)
      ensures keys == old(keys)[k := Present(count, later + window)]
    {
      count := (if k in keys then Count(keys[k], now) else 0) + 1;
      OneMoreCall(Past(k), Call(now, later), window);
      keys := keys[k := Present(count, later + window)];
      past := past[k := Past(k) + [Call(now, later)]];
    }

    /** INCR, then EXPIRE with the whole window again. */
    method RecordDemand(k: nat, now: Time)
      requires Valid()
      modifies this
      ensures Valid() && past == old(past)[k := old(Past(k)) + [Call(now, now)]]
      ensures keys == old(keys)[k := Present(Burst(old(Past(k)) + [Call(now, now)], window), now + window)]
    {
      var count := Increment(k, now, now);
    }

    /**
     One call of the guard that no other call of the key overlaps: it counts the request, refused or not,
     and refuses it when the burst it belongs to is too long; so request number max + 1 within a window is
     always refused.
     */
    method GuardDuplicatePickup(k: nat, now: Time, later: Time) returns (r: Result<()>)
      requires Valid()
      modifies this
      ensures Valid() && past == old(past)[k := old(Past(k)) + [Call(now, later)]]
      ensures r == if Burst(past[k], window) > maxDuplicateRequests then Err(Forbidden) else Ok(())
      ensures (Ascending(past[k]) && Lately(past[k], window) > maxDuplicateRequests) ==> r == Err(Forbidden)
    {
      var count := Increment(k, now, later);
      if Ascending(past[k]) {
        CounterCoversWindow(past[k], window);
      }
      r := if count > maxDuplicateRequests then Err(Forbidden) else Ok(());
    }
  }
}
