/** Issuing, rotating and revoking refresh tokens, one call at a time. */
module TokenIssuing {
  import opened Common
  import opened Tokens

  /** All tokens of the user are revoked; nothing else differs. */
  predicate RevokedAll(before: seq<Token>, after: seq<Token>, user: User) {
    |after| == |before|
    && forall i :: 0 <= i < |before| ==>
         after[i] == if before[i].user == user then before[i].(revoked := true) else before[i]
  }

  /**
   The token is marked, and if its user still exists there is one token more: live, of the same user and login,
   with this one as its parent. Nothing else differs.
   */
  predicate Rotated(
    before: seq<Token>, after: seq<Token>, id: Id, expiresAt: Time, userExists: bool, r: Result<Id>)
    requires id < |before|
  {
    && |after| == |before| + (if userExists then 1 else 0)
    && (forall i :: 0 <= i < |before| ==> after[i] == if i == id then before[i].(rotated := true) else before[i])
    && (userExists ==>
          after[|before|] == Token(before[id].user, before[id].login, Some(id), expiresAt, false, false))
    && r == if userExists then Ok(|before|) else Err(Unauthorized)
  }

  class TokenService {
    const refreshTtlMs: nat
    var rows: seq<Token>
    var logins: nat
    ghost var history: seq<Action>

    ghost function View(): State
      reads this
    {
      Run(Init(), history)
    }

    /** The table is what the protocol reaches, with no rotation halfway and no mark ever raced. */
    ghost predicate Valid()
      reads this
    {
      var s := View();
      s.rows == rows && s.logins == logins && s.procs == map[] && s.races == 0
    }

    constructor (refreshTtlMs: nat)
      ensures Valid() && rows == [] && logins == 0 && this.refreshTtlMs == refreshTtlMs
    {
      this.refreshTtlMs, rows, logins, history := refreshTtlMs, [], 0, [];
    }

    ghost method Record(a: Action)
      modifies this`history
      ensures history == old(history) + [a] && View() == Next(old(View()), a)
    {
      RunSnoc(Init(), history, a);
      history := history + [a];
    }

    /** A login issues the first token of a new lineage. */
    method IssueAtLogin(user: User, now: Time) returns (id: Id)
      requires Valid()
      modifies this
      ensures Valid() && id == |old(rows)|
      ensures rows == old(rows) + [Token(user, old(logins), None, now + refreshTtlMs, false, false)]
      ensures LiveCount(rows) <= logins == old(logins) + 1
    {
      id := |rows|;
      rows := rows + [Token(user, logins, None, now + refreshTtlMs, false, false)];
      logins := logins + 1;
      Record(Login(user, now + refreshTtlMs));
      TokensBalance(history);
    }

    /**
     One-time use: a token that is neither revoked nor expired is, on its first presentation, marked and succeeded
     by one live token of its lineage; presented again it costs the user every token. A token that does not
     exist, is revoked, or has expired changes nothing.
     */
    method Rotate(id: Id, now: Time, userExists: bool) returns (r: Result<Id>)
      requires Valid()
      modifies this
      ensures Valid() && logins == old(logins)
      ensures LiveCount(rows) <= logins
      ensures var before := old(rows);
              if id >= |before| || before[id].revoked || before[id].expiresAt < now
              then r == Err(Unauthorized) && rows == before
              else if before[id].rotated
              then r == Err(Unauthorized) && RevokedAll(before, rows, before[id].user)
              else Rotated(before, rows, id, now + refreshTtlMs, userExists, r)
    {
      match CheckToken(rows, id, now) {
        case Invalid =>
          r := Err(Unauthorized);
        case Reuse =>
          Record(Present(0, id, now));
          rows := RevokedFor(rows, rows[id].user);
          Record(Step(0, false, 0));
          r := Err(Unauthorized);
        case Accepted =>
          r := MarkAndIssue(id, now, userExists);
      }
      TokensBalance(history);
    }

    method MarkAndIssue(id: Id, now: Time, userExists: bool) returns (r: Result<Id>)
      requires Valid() && CheckToken(rows, id, now) == Accepted
      modifies this
      ensures Valid() && logins == old(logins)
      ensures Rotated(old(rows), rows, id, now + refreshTtlMs, userExists, r)
    {
      Record(Present(0, id, now));
      assert View().procs == map[0 := Marking(id)];
      rows := rows[id := rows[id].(rotated := true)];
      Record(Step(0, userExists, now + refreshTtlMs));
      assert View().procs == map[0 := Issuing(id)] && View().rows == rows;
      if userExists {
        rows := rows + [Successor(rows, id, now + refreshTtlMs)];
      }
      r := if userExists then Ok(|rows| - 1) else Err(Unauthorized);
      Record(Step(0, userExists, now + refreshTtlMs));
    }

    /** Logout: the token presented is revoked, whatever state it is in. */
    method Revoke(id: Id)
      requires Valid()
      modifies this
      ensures Valid() && logins == old(logins)
      ensures rows == if id < |old(rows)| then old(rows)[id := old(rows)[id].(revoked := true)] else old(rows)
    {
      if id < |rows| {
        rows := rows[id := rows[id].(revoked := true)];
      }
      Record(Tokens.Revoke(id));
    }

    method RevokeAllForUser(user: User)
      requires Valid()
      modifies this
      ensures Valid() && logins == old(logins) && RevokedAll(old(rows), rows, user) && AllRevoked(View(), user)
    {
      rows := RevokedFor(rows, user);
      Record(RevokeUser(user));
    }

    /**
     Presenting a rotated token ends every session of its user: none of the tokens they had is accepted
     again, whatever anybody does afterwards.
     */
    method ReuseEndsAllSessions(id: Id, now: Time) returns (r: Result<Id>)
      requires Valid() && id < |rows| && rows[id].rotated && !rows[id].revoked && now <= rows[id].expiresAt
      modifies this
      ensures Valid() && r == Err(Unauthorized)
      ensures forall other :: 0 <= other < |old(rows)| && old(rows)[other].user == old(rows)[id].user ==>
                NeverAccepted(View(), other)
    {
      r := Rotate(id, now, true);
      forall other | 0 <= other < |old(rows)| && old(rows)[other].user == old(rows)[id].user
        ensures NeverAccepted(View(), other)
      {
        RevokedForGood(View(), other);
      }
    }

    /** As calls come one at a time, each login has at most one live token, and each token one successor. */
    lemma OneLiveTokenPerLogin(i: Id, j: Id)
      requires Valid() && i < j < |rows|
      ensures rows[i].login == rows[j].login ==> !Live(rows[i]) || !Live(rows[j])
      ensures rows[i].parent.Some? ==> rows[i].parent != rows[j].parent
    {
      AlwaysChains(history);
    }
  }
}
