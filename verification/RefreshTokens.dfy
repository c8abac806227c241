/** Refresh-token rotation (app/services/auth_service.py). Passwords, signatures and hashes are foreign:
    a token is identified with its hash, and a login says whether the password matched. */
module RefreshTokens {
  import opened Types

  datatype TokenKind = Access | Refresh

  /** A decoded token: what it is for, whom it names, when it expires and its random identifier. */
  datatype Token = Token(kind: TokenKind, subject: Option<UserId>, expiresAt: Time, jti: nat)
  datatype Row = Row(user: UserId, expiresAt: Time, revoked: bool, revokedAt: Option<Time>)
  datatype Error = Unauthorized | Integrity

  /** Whether each user is ACTIVE, and the token table under its unique hash. */
  datatype Db = Db(users: map<UserId, bool>, tokens: map<Token, Row>)

  const LIFETIME: Time := 14 * DAY

  function NewToken(user: UserId, jti: nat, now: Time): Token {
    Token(Refresh, Some(user), now + LIFETIME, jti)
  }

  /** `_issue_token_pair`: the insert fails if the hash is already stored. */
  function Issue(db: Db, user: UserId, jti: nat, now: Time): (Db, Option<Error>) {
    var t := NewToken(user, jti, now);
    if t in db.tokens then (db, Some(Integrity))
    else (db.(tokens := db.tokens[t := Row(user, now + LIFETIME, false, None)]), None)
  }

  function Login(db: Db, user: UserId, passwordOk: bool, jti: nat, now: Time): (Db, Option<Error>) {
    if user !in db.users || !passwordOk || !db.users[user] then (db, Some(Unauthorized))
    else Issue(db, user, jti, now)
  }

  /** Why a token is refused, in the source's order: decoding, type, subject, row, expiry, user. */
  predicate Refused(db: Db, t: Token, now: Time) {
    || now > t.expiresAt || t.kind != Refresh || t.subject == None
    || t !in db.tokens || db.tokens[t].user != t.subject.value || db.tokens[t].revoked
    || db.tokens[t].expiresAt <= now
    || t.subject.value !in db.users || !db.users[t.subject.value]
  }

  function Revoke(db: Db, t: Token, now: Time): Db
    requires t in db.tokens
  {
    db.(tokens := db.tokens[t := db.tokens[t].(revoked := true, revokedAt := Some(now))])
  }

  function Redeem(db: Db, t: Token, jti: nat, now: Time): (Db, Option<Error>) {
    if Refused(db, t, now) then (db, Some(Unauthorized))
    else
      var (db', error) := Issue(Revoke(db, t, now), t.subject.value, jti, now);
      if error.Some? then (db, error) else (db', None)
  }

  function Logout(db: Db, user: UserId, now: Time): Db {
    db.(tokens := map t | t in db.tokens ::
      if db.tokens[t].user == user && !db.tokens[t].revoked
      then db.tokens[t].(revoked := true, revokedAt := Some(now)) else db.tokens[t])
  }

  class AuthService {
    var users: map<UserId, bool>
    var tokens: map<Token, Row>

    ghost function Snapshot(): Db
      reads this
    {
      Db(users, tokens)
    }

    constructor ()
      ensures Snapshot() == Db(map[], map[])
    {
      users, tokens := map[], map[];
    }

    method IssueTokenPair(user: UserId, jti: nat, now: Time) returns (error: Option<Error>, issued: Option<Token>)
      modifies this`tokens
      ensures (Snapshot(), error) == Issue(old(Snapshot()), user, jti, now)
      ensures issued == if error.None? then Some(Token(Refresh, Some(user), now + 14 * DAY, jti)) else None
    {
      var t := NewToken(user, jti, now);
      if t in tokens {
        return Some(Integrity), None;
      }
      tokens := tokens[t := Row(user, now + LIFETIME, false, None)];
      error, issued := None, Some(t);
    }

    method LogIn(user: UserId, passwordOk: bool, jti: nat, now: Time)
      returns (error: Option<Error>, issued: Option<Token>)
      modifies this`tokens
      ensures (Snapshot(), error) == Login(old(Snapshot()), user, passwordOk, jti, now)
      ensures issued == if error.None? then Some(Token(Refresh, Some(user), now + 14 * DAY, jti)) else None
    {
      if user !in users {
        return Some(Unauthorized), None;
      }
      if !passwordOk {
        return Some(Unauthorized), None;
      }
      if !users[user] {
        return Some(Unauthorized), None;
      }
      error, issued := IssueTokenPair(user, jti, now);
    }

    /** A failed insert rolls the whole request back. */
    method RefreshPair(t: Token, jti: nat, now: Time) returns (error: Option<Error>, issued: Option<Token>)
      modifies this`tokens
      ensures (Snapshot(), error) == Redeem(old(Snapshot()), t, jti, now)
      ensures issued == if error.None? then Some(Token(Refresh, t.subject, now + 14 * DAY, jti)) else None
    {
      if now > t.expiresAt || t.kind != Refresh || t.subject.None? {
        return Some(Unauthorized), None;
      }
      var user := t.subject.value;
      if t !in tokens || tokens[t].user != user || tokens[t].revoked {
        return Some(Unauthorized), None;
      }
      if tokens[t].expiresAt <= now {
        return Some(Unauthorized), None;
      }
      if user !in users || !users[user] {
        return Some(Unauthorized), None;
      }
      var before := tokens;
      tokens := tokens[t := tokens[t].(revoked := true, revokedAt := Some(now))];
      error, issued := IssueTokenPair(user, jti, now);
      if error.Some? {
        tokens := before;
      }
    }

    method LogOut(user: UserId, now: Time)
      modifies this`tokens
      ensures Snapshot() == Logout(old(Snapshot()), user, now)
    {
      var before := tokens;
      var todo := set t | t in tokens && tokens[t].user == user && !tokens[t].revoked;
      ghost var all := todo;
      while todo != {}
        invariant todo <= all && tokens.Keys == before.Keys
        invariant forall t :: t in before ==>
          tokens[t] == if t in all && t !in todo then before[t].(revoked := true, revokedAt := Some(now)) else before[t]
        decreases todo
      {
        var t :| t in todo;
        tokens := tokens[t := tokens[t].(revoked := true, revokedAt := Some(now))];
        todo := todo - {t};
      }
      assert tokens == Logout(Db(users, before), user, now).tokens;
    }
  }

  // ---- Runs -----------------------------------------------------------------------------------------

  datatype Request =
    | ToSetUser(user: UserId, active: bool)
    | ToLogin(user: UserId, passwordOk: bool, jti: nat)
    | ToRefresh(token: Token, jti: nat)
    | ToLogout(user: UserId)
  datatype Event = At(request: Request, now: Time)

  function Serve(db: Db, e: Event): (Db, Option<Error>) {
    match e.request
    case ToSetUser(user, active) => (db.(users := db.users[user := active]), None)
    case ToLogin(user, passwordOk, jti) => Login(db, user, passwordOk, jti, e.now)
    case ToRefresh(token, jti) => Redeem(db, token, jti, e.now)
    case ToLogout(user) => (Logout(db, user, e.now), None)
  }

  function Run(run: seq<Event>): Db {
    if |run| == 0 then Db(map[], map[]) else Serve(Run(run[..|run| - 1]), run[|run| - 1]).0
  }

  predicate Succeeds(before: seq<Event>, e: Event) {
    Serve(Run(before), e).1 == None
  }

  /** How often a token was redeemed. */
  function Redemptions(run: seq<Event>, t: Token): nat {
    if |run| == 0 then 0
    else
      var before, e := run[..|run| - 1], run[|run| - 1];
      Redemptions(before, t) + if e.request.ToRefresh? && e.request.token == t && Succeeds(before, e) then 1 else 0
  }

  /** A user's successful logins since their last logout. */
  function LoginsSinceLogout(run: seq<Event>, user: UserId): nat {
    if |run| == 0 then 0
    else
      var before, e := run[..|run| - 1], run[|run| - 1];
      if e.request == ToLogout(user) then 0
      else
        LoginsSinceLogout(before, user)
        + if e.request.ToLogin? && e.request.user == user && Succeeds(before, e) then 1 else 0
  }

  ghost function LiveTokens(db: Db, user: UserId): set<Token> {
    set t | t in db.tokens && db.tokens[t].user == user && !db.tokens[t].revoked
  }

  /** Stored tokens stay stored with their owner, and a revoked token stays revoked. */
  ghost predicate TokensGrow(db: Db, db': Db) {
    forall t :: t in db.tokens ==>
      t in db'.tokens && db'.tokens[t].user == db.tokens[t].user && (db.tokens[t].revoked ==> db'.tokens[t].revoked)
  }

  lemma StepGrows(db: Db, e: Event)
    ensures TokensGrow(db, Serve(db, e).0)
  {
  }

  lemma {:induction false} RunGrows(run: seq<Event>, more: seq<Event>)
    ensures TokensGrow(Run(run), Run(run + more))
  {
    if |more| == 0 {
      assert run + more == run;
    } else {
      var n := |more| - 1;
      RunGrows(run, more[..n]);
      assert (run + more)[..|run + more| - 1] == run + more[..n];
      StepGrows(Run(run + more[..n]), more[n]);
    }
  }

  lemma RedeemRevokes(db: Db, t: Token, jti: nat, now: Time)
    requires Redeem(db, t, jti, now).1 == None
    ensures var db' := Redeem(db, t, jti, now).0;
      && t in db.tokens && !db.tokens[t].revoked && t in db'.tokens && db'.tokens[t].revoked
  {
  }

  /** In every run each token is redeemed at most once; once redeemed it is revoked for good. */
  lemma {:induction false} RedeemedAtMostOnce(run: seq<Event>, t: Token)
    ensures Redemptions(run, t) <= 1
    ensures Redemptions(run, t) == 1 ==> t in Run(run).tokens && Run(run).tokens[t].revoked
  {
    hide Login, Redeem, Logout, Issue;
    if |run| > 0 {
      var before, e := run[..|run| - 1], run[|run| - 1];
      RedeemedAtMostOnce(before, t);
      StepGrows(Run(before), e);
      if e.request.ToRefresh? && Succeeds(before, e) {
        RedeemRevokes(Run(before), e.request.token, e.request.jti, e.now);
      }
    }
  }

  /** A token issued to a user before their logout is refused ever after, whatever happens in between. */
  lemma LogoutEndsTokens(run: seq<Event>, user: UserId, now: Time, more: seq<Event>, t: Token, later: Time, jti: nat)
    requires t in Run(run).tokens && Run(run).tokens[t].user == user
    ensures var db := Run(run + [At(ToLogout(user), now)] + more);
      Redeem(db, t, jti, later) == (db, Some(Unauthorized))
  {
    var out := run + [At(ToLogout(user), now)];
    assert out[..|run|] == run;
    assert Run(out) == Logout(Run(run), user, now);
    assert Run(out).tokens[t].revoked;
    RunGrows(out, more);
  }

  lemma IssueAddsOne(db: Db, user: UserId, jti: nat, now: Time, owner: UserId)
    requires Issue(db, user, jti, now).1 == None
    ensures |LiveTokens(Issue(db, user, jti, now).0, owner)| == |LiveTokens(db, owner)| + if owner == user then 1 else 0
  {
    var db', t := Issue(db, user, jti, now).0, NewToken(user, jti, now);
    if owner == user {
      assert LiveTokens(db', owner) == LiveTokens(db, owner) + {t};
    } else {
      assert LiveTokens(db', owner) == LiveTokens(db, owner);
    }
  }

  lemma RevokeTakesOne(db: Db, t: Token, now: Time, owner: UserId)
    requires t in db.tokens && !db.tokens[t].revoked
    ensures |LiveTokens(Revoke(db, t, now), owner)| + (if db.tokens[t].user == owner then 1 else 0)
        == |LiveTokens(db, owner)|
  {
    if db.tokens[t].user == owner {
      assert LiveTokens(db, owner) == LiveTokens(Revoke(db, t, now), owner) + {t};
    } else {
      assert LiveTokens(db, owner) == LiveTokens(Revoke(db, t, now), owner);
    }
  }

  lemma StepCounts(db: Db, e: Event, user: UserId)
    ensures var (db', error) := Serve(db, e);
      |LiveTokens(db', user)| == if e.request == ToLogout(user) then 0
        else |LiveTokens(db, user)| + if e.request.ToLogin? && e.request.user == user && error == None then 1 else 0
  {
    hide Issue;
    var (db', error) := Serve(db, e);
    match e.request
    case ToSetUser(_, _) => assert LiveTokens(db', user) == LiveTokens(db, user);
    case ToLogin(u, ok, jti) =>
      if error == None {
        IssueAddsOne(db, u, jti, e.now, user);
      } else {
        FailedIssue(db, u, jti, e.now);
      }
    case ToRefresh(t, jti) =>
      if error == None {
        RevokeTakesOne(db, t, e.now, user);
        IssueAddsOne(Revoke(db, t, e.now), t.subject.value, jti, e.now, user);
      }
    case ToLogout(u) =>
      if u == user {
        assert LiveTokens(db', user) == {};
      } else {
        assert LiveTokens(db', user) == LiveTokens(db, user);
      }
  }

  lemma FailedIssue(db: Db, user: UserId, jti: nat, now: Time)
    ensures Issue(db, user, jti, now).1.Some? ==> Issue(db, user, jti, now).0 == db
  {
  }

  /** A user's unrevoked tokens are as many as their logins since their last logout: a refresh trades one
      for one. */
  lemma {:induction false} LiveTokensCountLogins(run: seq<Event>, user: UserId)
    ensures |LiveTokens(Run(run), user)| == LoginsSinceLogout(run, user)
  {
    hide Serve;
    if |run| > 0 {
      LiveTokensCountLogins(run[..|run| - 1], user);
      StepCounts(Run(run[..|run| - 1]), run[|run| - 1], user);
    }
  }
}
