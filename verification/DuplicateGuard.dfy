/**
 The duplicate-pickup guard with any number of calls at once. A call reads the counter and stores it one
 higher in two accesses, so other calls of the same key may come in between.
 */
module DuplicateGuard {
  import opened TtlCounter

  type Pid = nat

  /** What a call between its two accesses has in hand. */
  datatype Reading = Reading(count: nat, at: Time)

  /** The key, the calls between read and write, and the finished calls with what each of them counted. */
  datatype State = State(key: Key, pending: map<Pid, Reading>, calls: seq<Call>, counts: seq<nat>, now: Time)

  datatype Action =
    | Read(pid: Pid)
    | Write(pid: Pid, stored: bool)   // an error of the store is swallowed
    | Crash(pid: Pid)
    | Tick(seconds: nat)

  function Next(window: nat, s: State, a: Action): State {
    match a
    case Read(pid) =>
      if pid in s.pending then s else s.(pending := s.pending[pid := Reading(Count(s.key, s.now) + 1, s.now)])
    case Write(pid, stored) =>
      if pid !in s.pending then s
      else
        var r := s.pending[pid];
        s.(key := if stored then Present(r.count, s.now + window) else s.key, pending := s.pending - {pid},
           calls := s.calls + [Call(r.at, s.now)], counts := s.counts + [r.count])
    case Crash(pid) => s.(pending := s.pending - {pid})
    case Tick(seconds) => s.(now := s.now + seconds)
  }

  function Init(now: Time): State {
    State(Absent, map[], [], [], now)
  }

  function Run(window: nat, s: State, acts: seq<Action>): State {
    if acts == [] then s else Next(window, Run(window, s, acts[..|acts| - 1]), acts[|acts| - 1])
  }

  lemma RunSnoc(window: nat, s: State, acts: seq<Action>, a: Action)
    ensures Run(window, s, acts + [a]) == Next(window, Run(window, s, acts), a)
  {
    assert (acts + [a])[..|acts|] == acts;
  }

  /** No call reads while another one has yet to write, and no write is lost. */
  predicate Separate(s: State, a: Action) {
    && (a.Read? && a.pid !in s.pending ==> s.pending == map[])
    && (a.Write? && a.pid in s.pending ==> a.stored)
  }

  predicate SeparateRun(window: nat, s: State, acts: seq<Action>) {
    acts == []
    || (SeparateRun(window, s, acts[..|acts| - 1])
        && Separate(Run(window, s, acts[..|acts| - 1]), acts[|acts| - 1]))
  }

  /** `t` can follow `s` by calls that do not overlap. */
  ghost predicate Leads(window: nat, s: State, t: State) {
    exists acts :: SeparateRun(window, s, acts) && Run(window, s, acts) == t
  }

  lemma LeadsSelf(window: nat, s: State)
    ensures Leads(window, s, s)
  {
    assert SeparateRun(window, s, []) && Run(window, s, []) == s;
  }

  lemma LeadsOn(window: nat, s: State, t: State, a: Action)
    requires Leads(window, s, t) && Separate(t, a)
    ensures Leads(window, s, Next(window, t, a))
  {
    var acts :| SeparateRun(window, s, acts) && Run(window, s, acts) == t;
    RunSnoc(window, s, acts, a);
    assert (acts + [a])[..|acts|] == acts;
    assert SeparateRun(window, s, acts + [a]);
  }

  /** Every call counted the burst it belongs to. */
  ghost predicate CountsBursts(window: nat, s: State) {
    |s.counts| == |s.calls| && forall n :: 0 <= n < |s.calls| ==> s.counts[n] == Burst(s.calls[..n + 1], window)
  }

  predicate ReadingOk(s: State, r: Reading) {
    r.count == Count(s.key, r.at) + 1 && r.at <= s.now
    && (s.calls != [] ==> s.calls[|s.calls| - 1].write <= r.at)
  }

  ghost predicate Inv(window: nat, s: State) {
    && CountsBursts(window, s) && Ascending(s.calls) && s.key == After(s.calls, window)
    && (s.calls != [] ==> s.calls[|s.calls| - 1].write <= s.now)
    && (forall p, q :: p in s.pending && q in s.pending ==> p == q)
    && (forall p :: p in s.pending ==> ReadingOk(s, s.pending[p]))
  }

  lemma AscendingSnoc(calls: seq<Call>, c: Call)
    requires Ascending(calls) && c.read <= c.write && (calls != [] ==> calls[|calls| - 1].write <= c.read)
    ensures Ascending(calls + [c])
  {
    forall i | 0 <= i < |calls| ensures calls[i].write <= c.read {
      if i < |calls| - 1 {
        assert calls[i].write <= calls[|calls| - 1].read;
      }
    }
  }

  lemma CountsSnoc(window: nat, s: State, t: State)
    requires CountsBursts(window, s) && s.calls <= t.calls && s.counts <= t.counts
    requires |t.calls| == |t.counts| == |s.calls| + 1 && t.counts[|s.calls|] == Burst(t.calls, window)
    ensures CountsBursts(window, t)
  {
    forall n | 0 <= n < |t.calls| ensures t.counts[n] == Burst(t.calls[..n + 1], window) {
      if n < |s.calls| {
        assert t.calls[..n + 1] == s.calls[..n + 1];
      } else {
        assert t.calls[..n + 1] == t.calls;
      }
    }
  }

  lemma NextKeepsInv(window: nat, s: State, a: Action)
    requires Inv(window, s) && Separate(s, a)
    ensures Inv(window, Next(window, s, a))
  {
    if a.Write? && a.pid in s.pending {
      var r := s.pending[a.pid];
      var c := Call(r.at, s.now);
      assert ReadingOk(s, r);
      AscendingSnoc(s.calls, c);
      OneMoreCall(s.calls, c, window);
      CountsSnoc(window, s, Next(window, s, a));
    }
  }

  lemma {:induction false} RunKeepsInv(window: nat, s: State, acts: seq<Action>)
    requires Inv(window, s) && SeparateRun(window, s, acts)
    ensures Inv(window, Run(window, s, acts))
  {
    if acts != [] {
      var n := |acts| - 1;
      RunKeepsInv(window, s, acts[..n]);
      NextKeepsInv(window, Run(window, s, acts[..n]), acts[n]);
    }
  }

  lemma LeadsInv(window: nat, s: State, t: State)
    requires Inv(window, s) && Leads(window, s, t)
    ensures Inv(window, t)
  {
    var acts :| SeparateRun(window, s, acts) && Run(window, s, acts) == t;
    RunKeepsInv(window, s, acts);
  }

  /** So without overlaps request number limit + 1 within a window is always over the limit. */
  lemma SeparateCallsAreCovered(window: nat, start: Time, s: State, n: nat)
    requires Leads(window, Init(start), s) && n < |s.calls|
    ensures |s.counts| == |s.calls| && s.counts[n] >= Lately(s.calls[..n + 1], window)
  {
    LeadsInv(window, Init(start), s);
    CounterCoversWindow(s.calls[..n + 1], window);
  }

  /** Two calls at the same time, the later one of which counted no more than the earlier one. */
  lemma Miscounted(window: nat, t: State, n: nat)
    requires window > 0 && n + 1 < |t.calls| == |t.counts|
    requires t.calls[n + 1].read == t.calls[n].write && t.counts[n + 1] <= t.counts[n]
    ensures !CountsBursts(window, t)
  {
    var calls := t.calls[..n + 2];
    assert calls[..n + 1] == t.calls[..n + 1];
    assert Follows(calls, n + 1, window);
    assert Burst(calls, window) == Burst(t.calls[..n + 1], window) + 1;
  }

  lemma OverlapMiscounts(window: nat, s: State, p: Pid, q: Pid) returns (t: State)
    requires window > 0 && Inv(window, s) && p in s.pending && q !in s.pending
    ensures Leads(window, Next(window, s, Read(q)), t) && !CountsBursts(window, t)
  {
    var s1 := Next(window, s, Read(q));
    assert ReadingOk(s, s.pending[p]);
    LeadsSelf(window, s1);
    LeadsOn(window, s1, s1, Write(p, true));
    var s2 := Next(window, s1, Write(p, true));
    LeadsOn(window, s1, s2, Write(q, true));
    t := Next(window, s2, Write(q, true));
    Miscounted(window, t, |s.calls|);
  }

  lemma LostWriteMiscounts(window: nat, s: State, p: Pid) returns (t: State)
    requires window > 0 && Inv(window, s) && p in s.pending
    ensures Leads(window, Next(window, s, Write(p, false)), t) && !CountsBursts(window, t)
  {
    var s1 := Next(window, s, Write(p, false));
    assert ReadingOk(s, s.pending[p]);
    assert s1.pending == map[];
    LeadsSelf(window, s1);
    LeadsOn(window, s1, s1, Read(p));
    var s2 := Next(window, s1, Read(p));
    LeadsOn(window, s1, s2, Write(p, true));
    t := Next(window, s2, Write(p, true));
    Miscounted(window, t, |s.calls|);
  }

  /**
   Exactly which actions make the guard miscount. In a state reached by calls that do not overlap, take
   any action that has an effect: every call counts its burst in everything that can follow without
   further overlaps if and only if the action was no read between another call's read and write, and no
   lost write.
   */
  lemma CountsRightIffSeparate(window: nat, start: Time, s: State, a: Action)
    requires window > 0 && Leads(window, Init(start), s) && Next(window, s, a) != s
    ensures Separate(s, a) <==> forall t :: Leads(window, Next(window, s, a), t) ==> CountsBursts(window, t)
  {
    LeadsInv(window, Init(start), s);
    var s1 := Next(window, s, a);
    if Separate(s, a) {
      NextKeepsInv(window, s, a);
      forall t | Leads(window, s1, t) ensures CountsBursts(window, t) {
        LeadsInv(window, s1, t);
      }
    } else if a.Read? {
      var p :| p in s.pending;
      var t := OverlapMiscounts(window, s, p, a.pid);
      assert !CountsBursts(window, t);
    } else {
      var t := LostWriteMiscounts(window, s, a.pid);
      assert !CountsBursts(window, t);
    }
  }

  /** A call after a window of silence counts only itself, whatever the counter had come to. */
  lemma SilenceStartsOver(window: nat, start: Time, s: State, p: Pid) returns (t: State)
    requires Leads(window, Init(start), s) && s.pending == map[]
    ensures t == Next(window, Next(window, Next(window, s, Tick(window)), Read(p)), Write(p, true))
    ensures |t.counts| == |s.counts| + 1 && t.counts[|s.counts|] == 1
  {
    LeadsInv(window, Init(start), s);
    if s.calls != [] {
      CounterIsBurst(s.calls, window);
    }
    t := Next(window, Next(window, Next(window, s, Tick(window)), Read(p)), Write(p, true));
  }

  /** A call that crashes between its accesses leaves the counter alone and is in nobody's way. */
  lemma CrashLeavesNoTrace(window: nat, start: Time, s: State, p: Pid, q: Pid)
    requires Leads(window, Init(start), s) && p in s.pending
    ensures Next(window, s, Crash(p)).key == s.key && Separate(Next(window, s, Crash(p)), Read(q))
  {
    LeadsInv(window, Init(start), s);
    assert s.pending - {p} == map[];
  }

  // ----- any number of calls can pass at once

  function Waiting(from: nat, to: nat): (w: map<Pid, Reading>)
    ensures forall p :: p in w <==> from <= p < to
    ensures forall p :: p in w ==> w[p] == Reading(1, 0)
  {
    if from >= to then map[] else Waiting(from, to - 1)[to - 1 := Reading(1, 0)]
  }

  lemma {:induction false} AllRead(window: nat, n: nat) returns (acts: seq<Action>)
    ensures Run(window, Init(0), acts) == State(Absent, Waiting(0, n), [], [], 0)
  {
    acts := [];
    if n == 0 {
      assert Waiting(0, 0) == map[];
    } else {
      var before := AllRead(window, n - 1);
      RunSnoc(window, Init(0), before, Read(n - 1));
      assert Waiting(0, n) == Waiting(0, n - 1)[n - 1 := Reading(1, 0)];
      acts := before + [Read(n - 1)];
    }
  }

  lemma {:induction false} SomeWritten(window: nat, n: nat, m: nat) returns (acts: seq<Action>)
    requires m <= n
    ensures var s := Run(window, Init(0), acts);
            && s.pending == Waiting(m, n) && s.now == 0 && |s.calls| == |s.counts| == m
            && forall k :: 0 <= k < m ==> s.calls[k] == Call(0, 0) && s.counts[k] == 1
    decreases m
  {
    if m == 0 {
      acts := AllRead(window, n);
    } else {
      var before := SomeWritten(window, n, m - 1);
      RunSnoc(window, Init(0), before, Write(m - 1, true));
      assert Waiting(m, n) == Waiting(m - 1, n) - {m - 1};
      acts := before + [Write(m - 1, true)];
    }
  }

  /** However many calls all read before any of them writes: each counts itself only, all in one window. */
  lemma OverlappingCallsPass(window: nat, n: nat) returns (acts: seq<Action>)
    requires window > 0
    ensures var s := Run(window, Init(0), acts);
            && |s.calls| == |s.counts| == n && Lately(s.calls, window) == n
            && forall k :: 0 <= k < n ==> s.counts[k] == 1
  {
    acts := SomeWritten(window, n, n);
    AllInWindow(Run(window, Init(0), acts).calls, window);
  }

  lemma {:induction false} AllInWindow(calls: seq<Call>, window: nat)
    requires window > 0 && forall k :: 0 <= k < |calls| ==> calls[k] == Call(0, 0)
    ensures Lately(calls, window) == |calls| && InWindow(calls, 0, window) == |calls|
  {
    if calls != [] {
      AllInWindow(calls[..|calls| - 1], window);
    }
  }
}
