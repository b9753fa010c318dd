/** What every mark, every successor and every revocation after reuse goes back to, over all interleavings. */
module TokenHistory {
  import opened Common
  import opened Tokens

  /** The process presented this token at this point: neither revoked nor expired, and rotated or not as told. */
  ghost predicate PresentedAt(acts: seq<Action>, k: nat, pid: Pid, id: Id, rotated: bool) {
    && k < |acts| && acts[k].Present? && acts[k].pid == pid && acts[k].id == id
    && var rows := Run(Init(), acts[..k]).rows;
       id < |rows| && rows[id].rotated == rotated && !rows[id].revoked && acts[k].now <= rows[id].expiresAt
  }

  ghost predicate Presented(acts: seq<Action>, pid: Pid, id: Id, rotated: bool) {
    exists k: nat :: PresentedAt(acts, k, pid, id, rotated)
  }

  /** Somebody presented the token while it could be rotated. */
  ghost predicate Accepted(acts: seq<Action>, id: Id) {
    exists pid :: Presented(acts, pid, id, false)
  }

  lemma PresentedOn(acts: seq<Action>, a: Action, pid: Pid, id: Id, rotated: bool)
    requires Presented(acts, pid, id, rotated)
    ensures Presented(acts + [a], pid, id, rotated)
  {
    var k: nat :| PresentedAt(acts, k, pid, id, rotated);
    assert (acts + [a])[..k] == acts[..k];
    assert PresentedAt(acts + [a], k, pid, id, rotated);
  }

  lemma AcceptedOn(acts: seq<Action>, a: Action, id: Id)
    requires Accepted(acts, id)
    ensures Accepted(acts + [a], id)
  {
    var pid :| Presented(acts, pid, id, false);
    PresentedOn(acts, a, pid, id, false);
  }

  /** A presentation that starts anything found the token unexpired and unrevoked. */
  lemma PresentedNow(acts: seq<Action>, s: State, pid: Pid, id: Id, now: Time)
    requires s == Run(Init(), acts) && pid !in s.procs && pid in Next(s, Present(pid, id, now)).procs
    ensures id < |s.rows|
    ensures var p := Next(s, Present(pid, id, now)).procs[pid];
            if p.Revoking? then p.user == s.rows[id].user && Presented(acts + [Present(pid, id, now)], pid, id, true)
            else p.Marking? && p.id == id && Presented(acts + [Present(pid, id, now)], pid, id, false)
  {
    var more := acts + [Present(pid, id, now)];
    assert more[..|acts|] == acts;
    assert PresentedAt(more, |acts|, pid, id, s.rows[id].rotated);
  }

  /** The process revokes the tokens of a user who owns a token it presented after that was rotated. */
  ghost predicate Reused(acts: seq<Action>, rows: seq<Token>, pid: Pid, u: User) {
    exists id: Id :: Presented(acts, pid, id, true) && id < |rows| && rows[id].user == u
  }

  /** What a process is about to do goes back to a presentation of its own. */
  ghost predicate ProcFounded(acts: seq<Action>, rows: seq<Token>, pid: Pid, p: Proc) {
    if p.Revoking? then Reused(acts, rows, pid, p.user) else Presented(acts, pid, p.id, false)
  }

  /** A mark and a successor go back to a presentation of the token. */
  ghost predicate RowFounded(acts: seq<Action>, rows: seq<Token>, i: Id)
    requires i < |rows|
  {
    && (rows[i].rotated ==> Accepted(acts, i))
    && (rows[i].parent.Some? ==> Accepted(acts, rows[i].parent.value))
  }

  ghost predicate Founded(acts: seq<Action>, s: State) {
    && (forall pid :: pid in s.procs ==> ProcFounded(acts, s.rows, pid, s.procs[pid]))
    && (forall i :: 0 <= i < |s.rows| ==> RowFounded(acts, s.rows, i))
  }

  /** Tokens stay in the table with their owner, lineage and expiry. */
  lemma RowsStay(s: State, a: Action)
    ensures |s.rows| <= |Next(s, a).rows|
    ensures forall i :: 0 <= i < |s.rows| ==>
              && Next(s, a).rows[i].user == s.rows[i].user && Next(s, a).rows[i].expiresAt == s.rows[i].expiresAt
              && Next(s, a).rows[i].parent == s.rows[i].parent
  {
  }

  lemma ReusedOn(acts: seq<Action>, a: Action, s: State, pid: Pid, u: User)
    requires Reused(acts, s.rows, pid, u)
    ensures Reused(acts + [a], Next(s, a).rows, pid, u)
  {
    RowsStay(s, a);
    var id: Id :| Presented(acts, pid, id, true) && id < |s.rows| && s.rows[id].user == u;
    PresentedOn(acts, a, pid, id, true);
    assert Next(s, a).rows[id].user == u;
  }

  lemma ProcStaysFounded(acts: seq<Action>, a: Action, s: State, pid: Pid)
    requires s == Run(Init(), acts) && pid in s.procs && ProcFounded(acts, s.rows, pid, s.procs[pid])
    ensures ProcFounded(acts + [a], Next(s, a).rows, pid, s.procs[pid])
  {
    if s.procs[pid].Revoking? {
      ReusedOn(acts, a, s, pid, s.procs[pid].user);
    } else {
      PresentedOn(acts, a, pid, s.procs[pid].id, false);
    }
  }

  /** Where a process stands after an action: where it stood, past its mark, or at a presentation just made. */
  lemma ProcBefore(s: State, a: Action, pid: Pid)
    requires pid in Next(s, a).procs
    ensures || (pid in s.procs && Next(s, a).procs[pid] == s.procs[pid])
            || (pid in s.procs && s.procs[pid].Marking? && Next(s, a).procs[pid] == Issuing(s.procs[pid].id))
            || (pid !in s.procs && a.Present? && a.pid == pid)
  {
  }

  lemma NextProcFounded(acts: seq<Action>, a: Action, s: State, pid: Pid)
    requires s == Run(Init(), acts) && Founded(acts, s) && pid in Next(s, a).procs
    ensures ProcFounded(acts + [a], Next(s, a).rows, pid, Next(s, a).procs[pid])
  {
    ProcBefore(s, a, pid);
    if pid in s.procs {
      ProcStaysFounded(acts, a, s, pid);
    } else {
      PresentedNow(acts, s, pid, a.id, a.now);
      RowsStay(s, a);
    }
  }

  /** A row after an action: as it was, newly marked by a process about to, or a successor just issued. */
  lemma RowBefore(s: State, a: Action, i: Id)
    requires i < |Next(s, a).rows|
    ensures Next(s, a).rows[i].rotated ==>
              || (i < |s.rows| && s.rows[i].rotated)
              || (a.Step? && a.pid in s.procs && s.procs[a.pid] == Marking(i))
    ensures Next(s, a).rows[i].parent.Some? ==>
              || (i < |s.rows| && s.rows[i].parent == Next(s, a).rows[i].parent)
              || (a.Step? && a.pid in s.procs && s.procs[a.pid] == Issuing(Next(s, a).rows[i].parent.value))
  {
  }

  lemma NextRowFounded(acts: seq<Action>, a: Action, s: State, i: Id)
    requires s == Run(Init(), acts) && Founded(acts, s) && i < |Next(s, a).rows|
    ensures RowFounded(acts + [a], Next(s, a).rows, i)
  {
    var row := Next(s, a).rows[i];
    RowBefore(s, a, i);
    if i < |s.rows| {
      assert RowFounded(acts, s.rows, i);
    }
    if a.Step? && a.pid in s.procs {
      assert ProcFounded(acts, s.rows, a.pid, s.procs[a.pid]);
    }
    if row.rotated {
      AcceptedOn(acts, a, i);
    }
    if row.parent.Some? {
      AcceptedOn(acts, a, row.parent.value);
    }
  }

  lemma {:induction false} AlwaysFounded(acts: seq<Action>)
    ensures Founded(acts, Run(Init(), acts))
  {
    if acts != [] {
      var n := |acts| - 1;
      var s := Run(Init(), acts[..n]);
      AlwaysFounded(acts[..n]);
      assert acts == acts[..n] + [acts[n]];
      forall pid | pid in Next(s, acts[n]).procs
        ensures ProcFounded(acts, Next(s, acts[n]).rows, pid, Next(s, acts[n]).procs[pid])
      {
        NextProcFounded(acts[..n], acts[n], s, pid);
      }
      forall i | 0 <= i < |Next(s, acts[n]).rows| ensures RowFounded(acts, Next(s, acts[n]).rows, i) {
        NextRowFounded(acts[..n], acts[n], s, i);
      }
    }
  }

  /**
   In every interleaving a process gets to the mark of a token, or to the insert of its successor, only by
   presenting the token itself, before its expiry and while it was neither rotated nor revoked; and to revoking
   a user's tokens only by presenting one of theirs, unexpired and unrevoked, that was already rotated.
   */
  lemma ProcessesPresented(acts: seq<Action>, pid: Pid)
    requires pid in Run(Init(), acts).procs
    ensures var s := Run(Init(), acts);
            var p := s.procs[pid];
            if p.Revoking? then Reused(acts, s.rows, pid, p.user) else Presented(acts, pid, p.id, false)
  {
    AlwaysFounded(acts);
  }

  /** And so no token is ever rotated or succeeded without having been presented in time. */
  lemma NoRotationOutOfTime(acts: seq<Action>, i: Id)
    requires i < |Run(Init(), acts).rows|
    ensures var t := Run(Init(), acts).rows[i];
            && (t.rotated ==> exists pid :: Presented(acts, pid, i, false))
            && (t.parent.Some? ==> exists pid :: Presented(acts, pid, t.parent.value, false))
  {
    AlwaysFounded(acts);
    assert RowFounded(acts, Run(Init(), acts).rows, i);
  }
}
