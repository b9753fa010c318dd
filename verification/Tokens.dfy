/**
 Refresh-token rotation. A rotation is three store accesses (read the row, mark it rotated, insert
 its successor), and the mark is unconditional, so the steps of several rotations may interleave.
 */
module Tokens {
  import opened Common

  type Id = nat
  type User = nat
  type Pid = nat
  type Time = int

  /** A row; `login` and `parent` say which login it descends from and which token it replaced. */
  datatype Token = Token(
    user: User, login: nat, parent: Option<Id>, expiresAt: Time, rotated: bool, revoked: bool)

  /** What a process does next. */
  datatype Proc =
    | Marking(id: Id)
    | Issuing(id: Id)
    | Revoking(user: User)

  /** `races` counts marks that hit a token marked before; `dropped`, marks never followed by an insert. */
  datatype State = State(rows: seq<Token>, logins: nat, procs: map<Pid, Proc>, races: nat, dropped: nat)

  datatype Action =
    | Login(user: User, expiresAt: Time)
    | Present(pid: Pid, id: Id, now: Time)             // rotate: read and check the row
    | Step(pid: Pid, userExists: bool, expiresAt: Time)
    | Revoke(id: Id)
    | RevokeUser(user: User)
    | Crash(pid: Pid)

  predicate Live(t: Token) {
    !t.rotated && !t.revoked
  }

  datatype Check = Invalid | Reuse | Accepted

  function CheckToken(rows: seq<Token>, id: Id, now: Time): Check {
    if id >= |rows| || rows[id].revoked || rows[id].expiresAt < now then Invalid
    else if rows[id].rotated then Reuse
    else Accepted
  }

  function RevokedFor(rows: seq<Token>, user: User): (r: seq<Token>)
    ensures |r| == |rows|
  {
    seq(|rows|, i requires 0 <= i < |rows| => if rows[i].user == user then rows[i].(revoked := true) else rows[i])
  }

  /** A live token of the same user and login, in place of token `id`. */
  function Successor(rows: seq<Token>, id: Id, expiresAt: Time): Token
    requires id < |rows|
  {
    Token(rows[id].user, rows[id].login, Some(id), expiresAt, false, false)
  }

  function Next(s: State, a: Action): State {
    match a
    case Login(u, exp) =>
      s.(rows := s.rows + [Token(u, s.logins, None, exp, false, false)], logins := s.logins + 1)
    case Present(pid, id, now) =>
      if pid in s.procs then s
      else (match CheckToken(s.rows, id, now)
            case Invalid => s
            case Reuse => s.(procs := s.procs[pid := Revoking(s.rows[id].user)])
            case Accepted => s.(procs := s.procs[pid := Marking(id)]))
    case Step(pid, userExists, exp) =>
      if pid !in s.procs then s
      else (match s.procs[pid]
            case Revoking(u) => s.(rows := RevokedFor(s.rows, u), procs := s.procs - {pid})
            case Marking(id) =>
              if id >= |s.rows| then s
              else s.(rows := s.rows[id := s.rows[id].(rotated := true)], procs := s.procs[pid := Issuing(id)],
                      races := if s.rows[id].rotated then s.races + 1 else s.races)
            case Issuing(id) =>
              if id >= |s.rows| then s
              else if !userExists then s.(procs := s.procs - {pid}, dropped := s.dropped + 1)
              else s.(rows := s.rows + [Successor(s.rows, id, exp)],
                      procs := s.procs - {pid}))
    case Revoke(id) =>
      if id < |s.rows| then s.(rows := s.rows[id := s.rows[id].(revoked := true)]) else s
    case RevokeUser(u) => s.(rows := RevokedFor(s.rows, u))
    case Crash(pid) =>
      s.(procs := s.procs - {pid},
         dropped := if pid in s.procs && s.procs[pid].Issuing? then s.dropped + 1 else s.dropped)
  }

  function Init(): State {
    State([], 0, map[], 0, 0)
  }

  function Run(s: State, acts: seq<Action>): State {
    if acts == [] then s else Next(Run(s, acts[..|acts| - 1]), acts[|acts| - 1])
  }

  lemma RunSnoc(s: State, acts: seq<Action>, a: Action)
    ensures Run(s, acts + [a]) == Next(Run(s, acts), a)
  {
    assert (acts + [a])[..|acts|] == acts;
  }

  // ----- conservation: tokens that can still be rotated

  function Unrotated(rows: seq<Token>): nat {
    if rows == [] then 0 else Unrotated(rows[..|rows| - 1]) + if rows[|rows| - 1].rotated then 0 else 1
  }

  function LiveCount(rows: seq<Token>): nat {
    if rows == [] then 0 else LiveCount(rows[..|rows| - 1]) + if Live(rows[|rows| - 1]) then 1 else 0
  }

  function InFlight(procs: map<Pid, Proc>): set<Pid> {
    set p | p in procs && procs[p].Issuing?
  }

  lemma {:induction false} LiveAtMostUnrotated(rows: seq<Token>)
    ensures LiveCount(rows) <= Unrotated(rows)
  {
    if rows != [] {
      LiveAtMostUnrotated(rows[..|rows| - 1]);
    }
  }

  lemma {:induction false} UnrotatedUpdate(rows: seq<Token>, i: Id, t: Token)
    requires i < |rows|
    ensures Unrotated(rows[i := t]) + (if rows[i].rotated then 0 else 1)
         == Unrotated(rows) + (if t.rotated then 0 else 1)
  {
    var n := |rows| - 1;
    if i == n {
      assert rows[i := t][..n] == rows[..n];
    } else {
      assert rows[i := t][..n] == rows[..n][i := t];
      UnrotatedUpdate(rows[..n], i, t);
    }
  }

  lemma {:induction false} UnrotatedSame(a: seq<Token>, b: seq<Token>)
    requires |a| == |b| && forall i :: 0 <= i < |a| ==> a[i].rotated == b[i].rotated
    ensures Unrotated(a) == Unrotated(b)
  {
    if a != [] {
      UnrotatedSame(a[..|a| - 1], b[..|b| - 1]);
    }
  }

  lemma UnrotatedSnoc(rows: seq<Token>, t: Token)
    ensures Unrotated(rows + [t]) == Unrotated(rows) + if t.rotated then 0 else 1
  {
    assert (rows + [t])[..|rows|] == rows;
  }

  predicate ProcOk(s: State, p: Proc) {
    match p
    case Marking(id) => id < |s.rows|
    case Issuing(id) => id < |s.rows| && s.rows[id].rotated
    case Revoking(_) => true
  }

  ghost predicate Inv(s: State) {
    && (forall pid :: pid in s.procs ==> ProcOk(s, s.procs[pid]))
    && (forall i :: 0 <= i < |s.rows| ==> s.rows[i].login < s.logins)
    && Balanced(s)
  }

  predicate Balanced(s: State) {
    Unrotated(s.rows) + |InFlight(s.procs)| + s.dropped == s.logins + s.races
  }

  lemma StepBalances(s: State, pid: Pid, ok: bool, exp: Time)
    requires Balanced(s) && pid in s.procs && ProcOk(s, s.procs[pid])
    ensures Balanced(Next(s, Step(pid, ok, exp)))
  {
    var t := Next(s, Step(pid, ok, exp));
    match s.procs[pid]
    case Revoking(u) =>
      UnrotatedSame(s.rows, t.rows);
      assert InFlight(t.procs) == InFlight(s.procs);
    case Marking(id) =>
      UnrotatedUpdate(s.rows, id, s.rows[id].(rotated := true));
      assert InFlight(t.procs) == InFlight(s.procs) + {pid};
    case Issuing(id) =>
      assert InFlight(t.procs) == InFlight(s.procs) - {pid};
      if ok {
        UnrotatedSnoc(s.rows, t.rows[|s.rows|]);
      }
  }

  lemma CrashBalances(s: State, pid: Pid)
    requires Balanced(s)
    ensures Balanced(Next(s, Crash(pid)))
  {
    assert InFlight(s.procs - {pid}) == InFlight(s.procs) - {pid};
  }

  lemma NextBalances(s: State, a: Action)
    requires Inv(s)
    ensures Balanced(Next(s, a))
  {
    match a
    case Login(u, exp) => UnrotatedSnoc(s.rows, Token(u, s.logins, None, exp, false, false));
    case Present(pid, id, now) => assert InFlight(Next(s, a).procs) == InFlight(s.procs);
    case Step(pid, ok, exp) => if pid in s.procs { StepBalances(s, pid, ok, exp); }
    case Revoke(id) => if id < |s.rows| { UnrotatedUpdate(s.rows, id, s.rows[id].(revoked := true)); }
    case RevokeUser(u) => UnrotatedSame(s.rows, RevokedFor(s.rows, u));
    case Crash(pid) => CrashBalances(s, pid);
  }

  /** Rows stay, stay rotated, and keep their login. */
  predicate Grows(before: seq<Token>, after: seq<Token>) {
    |before| <= |after|
    && forall i :: 0 <= i < |before| ==>
         after[i].login == before[i].login && (before[i].rotated ==> after[i].rotated)
  }

  lemma NextGrows(s: State, a: Action)
    ensures Grows(s.rows, Next(s, a).rows)
    ensures s.logins <= Next(s, a).logins
  {
  }

  lemma NextKeepsProc(s: State, a: Action, pid: Pid)
    requires pid in Next(s, a).procs && (pid in s.procs ==> ProcOk(s, s.procs[pid]))
    ensures ProcOk(Next(s, a), Next(s, a).procs[pid])
  {
    NextGrows(s, a);
  }

  lemma NextKeepsLogins(s: State, a: Action)
    requires Inv(s)
    ensures forall i :: 0 <= i < |Next(s, a).rows| ==> Next(s, a).rows[i].login < Next(s, a).logins
  {
    NextGrows(s, a);
    if a.Step? && a.pid in s.procs {
      assert ProcOk(s, s.procs[a.pid]);
    }
  }

  lemma NextKeepsInv(s: State, a: Action)
    requires Inv(s)
    ensures Inv(Next(s, a))
  {
    NextBalances(s, a);
    NextKeepsLogins(s, a);
    forall pid | pid in Next(s, a).procs ensures ProcOk(Next(s, a), Next(s, a).procs[pid]) {
      NextKeepsProc(s, a, pid);
    }
  }

  lemma {:induction false} AlwaysInv(acts: seq<Action>)
    ensures Inv(Run(Init(), acts))
  {
    if acts != [] {
      AlwaysInv(acts[..|acts| - 1]);
      NextKeepsInv(Run(Init(), acts[..|acts| - 1]), acts[|acts| - 1]);
    }
  }

  /**
   In every interleaving: tokens still to be rotated, plus insertions under way, plus insertions that
   will never come, are the logins plus the races. So live tokens exceed logins by at most the races.
   */
  lemma TokensBalance(acts: seq<Action>)
    ensures var s := Run(Init(), acts);
            && Unrotated(s.rows) + |InFlight(s.procs)| + s.dropped == s.logins + s.races
            && LiveCount(s.rows) <= s.logins + s.races
  {
    AlwaysInv(acts);
    LiveAtMostUnrotated(Run(Init(), acts).rows);
  }

  // ----- lineages

  predicate Issues(s: State, pid: Pid, id: Id) {
    pid in s.procs && s.procs[pid] == Issuing(id) && id < |s.rows|
  }

  /** Tokens of one login form a chain: all but the newest have been rotated. */
  ghost predicate OnlyNewestUnrotated(s: State) {
    forall i, j :: 0 <= i < j < |s.rows| && s.rows[i].login == s.rows[j].login ==> s.rows[i].rotated
  }

  /** While a successor is under way, the whole chain is rotated, and only one successor is under way. */
  ghost predicate OneSuccessor(s: State) {
    && (forall pid: Pid, id: Id, i :: Issues(s, pid, id) && 0 <= i < |s.rows| && s.rows[i].login == s.rows[id].login ==>
          s.rows[i].rotated)
    && (forall p: Pid, q: Pid, i: Id, j: Id ::
          Issues(s, p, i) && Issues(s, q, j) && s.rows[i].login == s.rows[j].login ==> p == q)
  }

  /** A token with a successor is rotated, and it has one successor, in the table or under way. */
  ghost predicate ParentsRotated(s: State) {
    forall i :: 0 <= i < |s.rows| && s.rows[i].parent.Some? ==>
      s.rows[i].parent.value < |s.rows| && s.rows[s.rows[i].parent.value].rotated
  }

  ghost predicate ParentsDiffer(s: State) {
    forall i, j :: 0 <= i < j < |s.rows| && s.rows[i].parent.Some? ==> s.rows[i].parent != s.rows[j].parent
  }

  ghost predicate NoneYet(s: State) {
    forall pid: Pid, id: Id, i :: Issues(s, pid, id) && 0 <= i < |s.rows| ==> s.rows[i].parent != Some(id)
  }

  ghost predicate ReplacedOnce(s: State) {
    ParentsRotated(s) && ParentsDiffer(s) && NoneYet(s)
  }

  ghost predicate Chains(s: State) {
    OnlyNewestUnrotated(s) && OneSuccessor(s) && ReplacedOnce(s)
  }

  lemma NextKeepsNewest(s: State, a: Action)
    requires Inv(s) && Chains(s) && Next(s, a).races == 0
    ensures OnlyNewestUnrotated(Next(s, a))
  {
    if a.Step? && a.pid in s.procs && s.procs[a.pid].Issuing? {
      assert ProcOk(s, s.procs[a.pid]);
      assert Issues(s, a.pid, s.procs[a.pid].id);
    }
  }

  lemma NextKeepsOneSuccessor(s: State, a: Action)
    requires Inv(s) && Chains(s) && Next(s, a).races == 0 && s.races == 0
    ensures OneSuccessor(Next(s, a))
  {
    var t := Next(s, a);
    forall pid: Pid, id: Id, i | Issues(t, pid, id) && 0 <= i < |t.rows| && t.rows[i].login == t.rows[id].login
      ensures t.rows[i].rotated
    {
      IssuesBefore(s, a, pid, id);
      if i == |s.rows| && a.Step? {
        assert Issues(s, a.pid, s.procs[a.pid].id);
      }
    }
    forall p: Pid, q: Pid, i: Id, j: Id | Issues(t, p, i) && Issues(t, q, j) && t.rows[i].login == t.rows[j].login
      ensures p == q
    {
      IssuesBefore(s, a, p, i);
      IssuesBefore(s, a, q, j);
    }
  }

  /** A successor comes under way only by marking a token that was not yet rotated. */
  lemma IssuesBefore(s: State, a: Action, pid: Pid, id: Id)
    requires Inv(s) && Next(s, a).races == s.races && Issues(Next(s, a), pid, id)
    ensures id < |s.rows| && Next(s, a).rows[id].login == s.rows[id].login
    ensures Issues(s, pid, id) || (a.Step? && a.pid == pid && s.procs[pid] == Marking(id) && !s.rows[id].rotated)
  {
    if pid in s.procs {
      assert ProcOk(s, s.procs[pid]);
    }
  }

  /** Old rows keep their parent, and stay rotated; a new row's parent has an insertion under way. */
  lemma ParentsBefore(s: State, a: Action, i: Id)
    requires Inv(s) && i < |Next(s, a).rows|
    ensures i < |s.rows| ==>
              Next(s, a).rows[i].parent == s.rows[i].parent && (s.rows[i].rotated ==> Next(s, a).rows[i].rotated)
    ensures i >= |s.rows| ==>
              i == |s.rows| &&
              (Next(s, a).rows[i].parent == None
               || (a.Step? && Issues(s, a.pid, s.procs[a.pid].id)
                   && Next(s, a).rows[i].parent == Some(s.procs[a.pid].id) && s.rows[s.procs[a.pid].id].rotated))
    ensures |Next(s, a).rows| >= |s.rows|
  {
    if a.Step? && a.pid in s.procs {
      assert ProcOk(s, s.procs[a.pid]);
    }
  }

  lemma NextKeepsParents(s: State, a: Action)
    requires Inv(s) && ReplacedOnce(s)
    ensures ParentsRotated(Next(s, a)) && ParentsDiffer(Next(s, a))
  {
    var t := Next(s, a);
    forall i | 0 <= i < |t.rows| && t.rows[i].parent.Some?
      ensures t.rows[i].parent.value < |t.rows| && t.rows[t.rows[i].parent.value].rotated
    {
      ParentsBefore(s, a, i);
      ParentsBefore(s, a, t.rows[i].parent.value);
    }
    forall i, j | 0 <= i < j < |t.rows| && t.rows[i].parent.Some? ensures t.rows[i].parent != t.rows[j].parent {
      ParentsBefore(s, a, i);
      ParentsBefore(s, a, j);
    }
  }

  lemma NextKeepsNoneYet(s: State, a: Action)
    requires Inv(s) && Chains(s) && Next(s, a).races == 0 && s.races == 0
    ensures NoneYet(Next(s, a))
  {
    var t := Next(s, a);
    forall pid: Pid, id: Id, i | Issues(t, pid, id) && 0 <= i < |t.rows| ensures t.rows[i].parent != Some(id) {
      IssuesBefore(s, a, pid, id);
      ParentsBefore(s, a, i);
    }
  }

  lemma {:induction false} AlwaysChains(acts: seq<Action>)
    requires Run(Init(), acts).races == 0
    ensures Chains(Run(Init(), acts))
  {
    if acts != [] {
      var s, a := Run(Init(), acts[..|acts| - 1]), acts[|acts| - 1];
      AlwaysInv(acts[..|acts| - 1]);
      AlwaysChains(acts[..|acts| - 1]);
      NextKeepsNewest(s, a);
      NextKeepsOneSuccessor(s, a);
      NextKeepsParents(s, a);
      NextKeepsNoneYet(s, a);
    }
  }

  /** No two live tokens of one login, no two successors of one token. */
  ghost predicate OneTime(s: State) {
    forall i, j :: 0 <= i < j < |s.rows| ==>
      && (s.rows[i].login == s.rows[j].login ==> !Live(s.rows[i]) || !Live(s.rows[j]))
      && (s.rows[i].parent.Some? ==> s.rows[i].parent != s.rows[j].parent)
  }

  /** No token is accepted while another rotation that accepted it has not marked it yet. */
  ghost predicate Separate(s: State, a: Action) {
    a.Present? && a.pid !in s.procs && CheckToken(s.rows, a.id, a.now) == Accepted ==>
      forall pid :: pid in s.procs ==> s.procs[pid] != Marking(a.id)
  }

  ghost predicate SeparateRun(s: State, acts: seq<Action>) {
    forall i :: 0 <= i < |acts| ==> Separate(Run(s, acts[..i]), acts[i])
  }

  /** A token about to be marked is not marked yet, and only one process is about to mark it. */
  ghost predicate MarkersAlone(s: State) {
    && (forall p :: p in s.procs && s.procs[p].Marking? ==>
          s.procs[p].id < |s.rows| && !s.rows[s.procs[p].id].rotated)
    && (forall p, q :: p in s.procs && q in s.procs && s.procs[p].Marking? && s.procs[p] == s.procs[q] ==> p == q)
  }

  lemma NextKeepsAlone(s: State, a: Action)
    requires MarkersAlone(s) && Separate(s, a)
    ensures MarkersAlone(Next(s, a)) && Next(s, a).races == s.races
  {
  }

  lemma SeparatePrefix(s: State, acts: seq<Action>, n: nat)
    requires SeparateRun(s, acts) && n <= |acts|
    ensures SeparateRun(s, acts[..n])
  {
    forall i | 0 <= i < n ensures Separate(Run(s, acts[..n][..i]), acts[..n][i]) {
      assert acts[..n][..i] == acts[..i];
    }
  }

  lemma {:induction false} NeverRaces(acts: seq<Action>)
    requires SeparateRun(Init(), acts)
    ensures MarkersAlone(Run(Init(), acts)) && Run(Init(), acts).races == 0
  {
    if acts != [] {
      var n := |acts| - 1;
      SeparatePrefix(Init(), acts, n);
      NeverRaces(acts[..n]);
      NextKeepsAlone(Run(Init(), acts[..n]), acts[n]);
    }
  }

  /**
   Unless a token is accepted twice before it is marked once, rotation is one-time: per login at most
   one live token, per token one successor, and no more live tokens than logins.
   */
  lemma RotationIsOneTime(acts: seq<Action>)
    requires SeparateRun(Init(), acts)
    ensures OneTime(Run(Init(), acts))
    ensures LiveCount(Run(Init(), acts).rows) <= Run(Init(), acts).logins
  {
    NeverRaces(acts);
    AlwaysChains(acts);
    TokensBalance(acts);
  }

  lemma {:induction false} RunConcat(s: State, a: seq<Action>, b: seq<Action>)
    ensures Run(s, a + b) == Run(Run(s, a), b)
  {
    if b == [] {
      assert a + b == a;
    } else {
      var n := |b| - 1;
      assert (a + b)[..|a| + n] == a + b[..n];
      RunConcat(s, a, b[..n]);
    }
  }

  lemma SeparateConcat(s: State, a: seq<Action>, b: seq<Action>)
    requires SeparateRun(s, a) && SeparateRun(Run(s, a), b)
    ensures SeparateRun(s, a + b)
  {
    forall i | 0 <= i < |a + b| ensures Separate(Run(s, (a + b)[..i]), (a + b)[i]) {
      if i < |a| {
        assert (a + b)[..i] == a[..i];
      } else {
        assert (a + b)[..i] == a + b[..i - |a|];
        RunConcat(s, a, b[..i - |a|]);
      }
    }
  }

  /** A token accepted by `q` while `p` has accepted but not marked it: both get a live successor. */
  lemma RaceGivesTwoSuccessors(s: State, p: Pid, q: Pid, id: Id, now: Time, exp: Time) returns (t: State)
    requires p in s.procs && s.procs[p] == Marking(id) && q !in s.procs && CheckToken(s.rows, id, now) == Accepted
    ensures t == Run(Next(s, Present(q, id, now)),
                     [] + [Step(p, true, exp)] + [Step(p, true, exp)] + [Step(q, true, exp)] + [Step(q, true, exp)])
    ensures t.races == s.races + 1 && |t.rows| == |s.rows| + 2
    ensures forall k :: |s.rows| <= k < |t.rows| ==> Live(t.rows[k]) && t.rows[k].parent == Some(id)
  {
    var a, b := Step(p, true, exp), Step(q, true, exp);
    var s1 := Next(s, Present(q, id, now));
    var s2 := Next(s1, a);
    assert s2.rows[id].rotated && s2.procs[p] == Issuing(id) && s2.procs[q] == Marking(id) && s2.races == s.races;
    var s3 := Next(s2, a);
    assert s3.rows[id].rotated && s3.procs[q] == Marking(id) && |s3.rows| == |s.rows| + 1;
    var s4 := Next(s3, b);
    t := Next(s4, b);
    RunFour(s1, a, a, b, b);
  }

  lemma RunFour(s: State, a: Action, b: Action, c: Action, d: Action)
    ensures Run(s, [] + [a] + [b] + [c] + [d]) == Next(Next(Next(Next(s, a), b), c), d)
  {
    RunSnoc(s, [], a);
    RunSnoc(s, [] + [a], b);
    RunSnoc(s, [] + [a] + [b], c);
    RunSnoc(s, [] + [a] + [b] + [c], d);
  }

  /** `t` can follow `s` by separate presentations. */
  ghost predicate Leads(s: State, t: State) {
    exists acts :: SeparateRun(s, acts) && Run(s, acts) == t
  }

  lemma SeparateSnoc(s: State, acts: seq<Action>, a: Action)
    requires SeparateRun(s, acts) && Separate(Run(s, acts), a)
    ensures SeparateRun(s, acts + [a])
  {
    forall i | 0 <= i < |acts + [a]| ensures Separate(Run(s, (acts + [a])[..i]), (acts + [a])[i]) {
      assert (acts + [a])[..i] == acts[..i];
      assert i == |acts| ==> acts[..i] == acts;
    }
  }

  lemma LeadsOn(s: State, t: State, a: Action)
    requires Leads(s, t) && Separate(t, a)
    ensures Leads(s, Next(t, a))
  {
    var acts :| SeparateRun(s, acts) && Run(s, acts) == t;
    SeparateSnoc(s, acts, a);
    RunSnoc(s, acts, a);
  }

  lemma LeadsThrough(s: State, t: State, u: State)
    requires Leads(s, t) && Leads(t, u)
    ensures Leads(s, u)
  {
    var before :| SeparateRun(s, before) && Run(s, before) == t;
    var after :| SeparateRun(t, after) && Run(t, after) == u;
    SeparateConcat(s, before, after);
    RunConcat(s, before, after);
  }

  lemma ReachedIsOneTime(s: State)
    requires Leads(Init(), s)
    ensures OneTime(s)
  {
    var acts :| SeparateRun(Init(), acts) && Run(Init(), acts) == s;
    RotationIsOneTime(acts);
  }

  lemma OverlapIsUnsafe(s: State, p: Pid, q: Pid, id: Id, now: Time) returns (t: State)
    requires p in s.procs && s.procs[p] == Marking(id) && q !in s.procs && CheckToken(s.rows, id, now) == Accepted
    ensures Leads(Next(s, Present(q, id, now)), t) && !OneTime(t)
  {
    t := RaceGivesTwoSuccessors(s, p, q, id, now, 0);
    var b, c := Step(p, true, 0), Step(q, true, 0);
    var s1, more := Next(s, Present(q, id, now)), [] + [b] + [b] + [c] + [c];
    assert SeparateRun(s1, more) && Run(s1, more) == t;
    assert t.rows[|s.rows|].parent == t.rows[|s.rows| + 1].parent;
  }

  /**
   Exactly when accepting a token is safe, in a state reached by separate presentations: rotation stays
   one-time in every continuation by separate presentations if and only if no other rotation of the
   token is between its check and its mark.
   */
  lemma AcceptSafeIffAlone(s: State, q: Pid, id: Id, now: Time)
    requires Leads(Init(), s) && q !in s.procs && CheckToken(s.rows, id, now) == Accepted
    ensures (forall p :: p in s.procs ==> s.procs[p] != Marking(id))
       <==> forall t :: Leads(Next(s, Present(q, id, now)), t) ==> OneTime(t)
  {
    var a := Present(q, id, now);
    if p :| p in s.procs && s.procs[p] == Marking(id) {
      var t := OverlapIsUnsafe(s, p, q, id, now);
      assert Leads(Next(s, a), t) && !OneTime(t);
    } else {
      LeadsOn(Init(), s, a);
      forall t | Leads(Next(s, a), t) ensures OneTime(t) {
        LeadsThrough(Init(), Next(s, a), t);
        ReachedIsOneTime(t);
      }
    }
  }

  /** Such an overlap does occur. */
  lemma OverlapIsReachable(u: User, now: Time)
    ensures exists s ::
              && Leads(Init(), s) && 0 in s.procs && s.procs[0] == Marking(0)
              && 1 !in s.procs && CheckToken(s.rows, 0, now) == Accepted
  {
    var a, b := Login(u, now), Present(0, 0, now);
    RunSnoc(Init(), [], a);
    RunSnoc(Init(), [] + [a], b);
    var s := Next(Next(Init(), a), b);
    assert SeparateRun(Init(), [] + [a] + [b]);
    assert Leads(Init(), s);
  }

  // ----- revocation after reuse

  /** A rotation of one of the user's tokens has passed its check and can still insert a token. */
  predicate RotatesFor(s: State, pid: Pid, u: User) {
    && pid in s.procs && !s.procs[pid].Revoking?
    && s.procs[pid].id < |s.rows| && s.rows[s.procs[pid].id].user == u
  }

  ghost predicate NoneInFlight(s: State, u: User) {
    forall pid :: pid in s.procs ==> !RotatesFor(s, pid, u)
  }

  predicate AllRevoked(s: State, u: User) {
    forall i :: 0 <= i < |s.rows| && s.rows[i].user == u ==> s.rows[i].revoked
  }

  predicate NoLogin(acts: seq<Action>, u: User) {
    forall i :: 0 <= i < |acts| ==> !(acts[i].Login? && acts[i].user == u)
  }

  lemma {:induction false} StaysRevoked(s: State, acts: seq<Action>, u: User)
    requires Inv(s) && AllRevoked(s, u) && NoneInFlight(s, u) && NoLogin(acts, u)
    ensures Inv(Run(s, acts)) && AllRevoked(Run(s, acts), u) && NoneInFlight(Run(s, acts), u)
  {
    if acts != [] {
      var n := |acts| - 1;
      StaysRevoked(s, acts[..n], u);
      NextStaysRevoked(Run(s, acts[..n]), acts[n], u);
      NextKeepsInv(Run(s, acts[..n]), acts[n]);
    }
  }

  lemma NextStaysRevoked(s: State, a: Action, u: User)
    requires Inv(s) && AllRevoked(s, u) && NoneInFlight(s, u) && !(a.Login? && a.user == u)
    ensures AllRevoked(Next(s, a), u) && NoneInFlight(Next(s, a), u)
  {
    var t := Next(s, a);
    if a.Step? && a.pid in s.procs {
      assert ProcOk(s, s.procs[a.pid]) && !RotatesFor(s, a.pid, u);
    }
    forall pid | pid in t.procs ensures !RotatesFor(t, pid, u) {
      if pid in s.procs {
        assert ProcOk(s, s.procs[pid]) && !RotatesFor(s, pid, u);
      }
    }
  }

  /** A rotation caught between its check and its insert outlives the revocation. */
  lemma InFlightSurvives(s: State, pid: Pid, u: User) returns (acts: seq<Action>)
    requires Inv(s) && RotatesFor(s, pid, u)
    ensures NoLogin(acts, u)
    ensures exists i :: 0 <= i < |Run(Next(s, RevokeUser(u)), acts).rows|
              && Run(Next(s, RevokeUser(u)), acts).rows[i].user == u && Live(Run(Next(s, RevokeUser(u)), acts).rows[i])
  {
    var r, step := Next(s, RevokeUser(u)), Step(pid, true, 0);
    RunSnoc(r, [], step);
    RunSnoc(r, [] + [step], step);
    acts := if s.procs[pid].Issuing? then [] + [step] else [] + [step] + [step];
    var t := Run(r, acts);
    assert t.rows[|s.rows|].user == u && Live(t.rows[|s.rows|]);
  }

  /**
   Exactly when revoking a user's tokens is final (until the next login): if and only if no rotation
   of one of the user's tokens is past its check.
   */
  lemma RevocationFinalIffNoneInFlight(s: State, u: User)
    requires Inv(s)
    ensures NoneInFlight(s, u) <==>
              forall acts :: NoLogin(acts, u) ==> AllRevoked(Run(Next(s, RevokeUser(u)), acts), u)
  {
    var r := Next(s, RevokeUser(u));
    if NoneInFlight(s, u) {
      NextKeepsInv(s, RevokeUser(u));
      assert NoneInFlight(r, u) by {
        forall pid | pid in r.procs ensures !RotatesFor(r, pid, u) { assert !RotatesFor(s, pid, u); }
      }
      forall acts | NoLogin(acts, u) ensures AllRevoked(Run(r, acts), u) {
        StaysRevoked(r, acts, u);
      }
    } else {
      var pid :| pid in s.procs && RotatesFor(s, pid, u);
      var acts := InFlightSurvives(s, pid, u);
      assert !AllRevoked(Run(r, acts), u);
    }
  }

  /** A revoked token is never accepted again, whatever happens. */
  lemma {:induction false} RevokedNeverAccepted(s: State, acts: seq<Action>, id: Id, now: Time)
    requires id < |s.rows| && s.rows[id].revoked
    ensures id < |Run(s, acts).rows| && CheckToken(Run(s, acts).rows, id, now) == Invalid
  {
    if acts != [] {
      RevokedNeverAccepted(s, acts[..|acts| - 1], id, now);
    }
  }

  /** The token is refused as invalid at any time after any further actions. */
  ghost predicate NeverAccepted(s: State, id: Id) {
    forall acts, now :: CheckToken(Run(s, acts).rows, id, now) == Invalid
  }

  /** After a user's tokens were revoked, none of the tokens there were is ever accepted again. */
  lemma RevokedForGood(s: State, id: Id)
    requires id < |s.rows| && s.rows[id].revoked
    ensures NeverAccepted(s, id)
  {
    forall acts, now ensures CheckToken(Run(s, acts).rows, id, now) == Invalid {
      RevokedNeverAccepted(s, acts, id, now);
    }
  }
}
