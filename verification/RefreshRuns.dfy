/** When a refresh succeeds, told by the requests of a run and their answers alone. */
module RefreshRuns {
  import opened Types
  import opened RefreshTokens

  /** The accepted login or refresh that handed out the token: to whom, with which identifier, for fourteen days. */
  predicate Issues(before: seq<Event>, e: Event, t: Token) {
    && Succeeds(before, e) && t.kind == Refresh && t.expiresAt == e.now + 14 * DAY
    && match e.request
       case ToLogin(user, _, jti) => t.subject == Some(user) && t.jti == jti
       case ToRefresh(used, jti) => used.subject.Some? && t.subject == used.subject && t.jti == jti
       case _ => false
  }

  /** The accepted refresh that used the token up, or a logout of its user. */
  predicate Ends(before: seq<Event>, e: Event, t: Token) {
    match e.request
    case ToRefresh(used, _) => used == t && Succeeds(before, e)
    case ToLogout(user) => t.subject == Some(user)
    case _ => false
  }

  predicate IssuedAt(run: seq<Event>, k: nat, t: Token) {
    k < |run| && Issues(run[..k], run[k], t)
  }

  /** The token was handed out at some moment of the run. */
  ghost predicate WasIssued(run: seq<Event>, t: Token) {
    exists k: nat :: IssuedAt(run, k, t)
  }

  predicate EndedAt(run: seq<Event>, k: nat, t: Token) {
    k < |run| && Ends(run[..k], run[k], t)
  }

  /** Issued at `k`, and neither used up nor logged out since. */
  ghost predicate LiveSince(run: seq<Event>, k: nat, t: Token) {
    IssuedAt(run, k, t) && forall j: nat :: k < j < |run| ==> !EndedAt(run, j, t)
  }

  /** Whether the user was ACTIVE last. */
  predicate IsActive(run: seq<Event>, user: UserId) {
    |run| > 0 &&
      match run[|run| - 1].request
      case ToSetUser(u, active) => if u == user then active else IsActive(run[..|run| - 1], user)
      case _ => IsActive(run[..|run| - 1], user)
  }

  // ---- What the tables remember -----------------------------------------------------------------------------

  lemma {:induction false} UsersAreRemembered(run: seq<Event>, user: UserId)
    ensures IsActive(run, user) <==> user in Run(run).users && Run(run).users[user]
  {
    if |run| > 0 {
      UsersAreRemembered(run[..|run| - 1], user);
    }
  }

  /** A row belongs to the user that its token names, and expires with it. */
  ghost predicate RowsMatch(db: Db) {
    forall t :: t in db.tokens ==>
      t.kind == Refresh && t.subject == Some(db.tokens[t].user) && db.tokens[t].expiresAt == t.expiresAt
  }

  lemma {:induction false} RowsAlwaysMatch(run: seq<Event>)
    ensures RowsMatch(Run(run))
  {
    if |run| > 0 {
      RowsAlwaysMatch(run[..|run| - 1]);
    }
  }

  predicate Unrevoked(db: Db, t: Token) {
    t in db.tokens && !db.tokens[t].revoked
  }

  /** One event: a token becomes stored or unrevoked by being issued, and stops being unrevoked by being ended. */
  lemma TokenStep(before: seq<Event>, e: Event, t: Token)
    ensures var db, db' := Run(before), Serve(Run(before), e).0;
      && (t in db'.tokens <==> t in db.tokens || Issues(before, e, t))
      && (Unrevoked(db', t) <==> Issues(before, e, t) || (Unrevoked(db, t) && !Ends(before, e, t)))
  {
    hide Run;
    RowsAlwaysMatch(before);
  }

  lemma {:induction false} StoredIffIssued(run: seq<Event>, t: Token)
    ensures t in Run(run).tokens <==> WasIssued(run, t)
  {
    hide Issues, Serve;
    if |run| > 0 {
      var n := |run| - 1;
      StoredIffIssued(run[..n], t);
      TokenStep(run[..n], run[n], t);
      forall k: nat | k < n ensures IssuedAt(run, k, t) <==> IssuedAt(run[..n], k, t) {
        assert run[..n][..k] == run[..k];
      }
      if Issues(run[..n], run[n], t) {
        assert IssuedAt(run, n, t);
      }
      if k: nat :| IssuedAt(run[..n], k, t) {
        assert IssuedAt(run, k, t);
      }
      if k: nat :| IssuedAt(run, k, t) {
        assert k < n ==> IssuedAt(run[..n], k, t);
      }
    }
  }

  lemma LivePrefix(run: seq<Event>, k: nat, t: Token)
    requires |run| > 0 && k < |run| - 1
    ensures LiveSince(run, k, t) <==>
      LiveSince(run[..|run| - 1], k, t) && !Ends(run[..|run| - 1], run[|run| - 1], t)
  {
    hide Issues, Ends;
    var n := |run| - 1;
    forall j: nat | j < n ensures EndedAt(run, j, t) <==> EndedAt(run[..n], j, t) {
      assert run[..n][..j] == run[..j];
    }
    assert run[..n][..k] == run[..k];
    assert EndedAt(run, n, t) <==> Ends(run[..n], run[n], t);
  }

  lemma {:induction false} UnrevokedIffLive(run: seq<Event>, t: Token)
    ensures Unrevoked(Run(run), t) <==> exists k: nat :: LiveSince(run, k, t)
  {
    hide Issues, Ends, Serve, Unrevoked;
    if |run| == 0 {
      NothingStored(t);
    } else {
      var n := |run| - 1;
      UnrevokedIffLive(run[..n], t);
      TokenStep(run[..n], run[n], t);
      if Issues(run[..n], run[n], t) {
        assert LiveSince(run, n, t);
      }
      if k: nat :| LiveSince(run[..n], k, t) {
        LivePrefix(run, k, t);
      }
      if k: nat :| LiveSince(run, k, t) {
        if k < n {
          LivePrefix(run, k, t);
        }
      }
    }
  }

  lemma NothingStored(t: Token)
    ensures !Unrevoked(Run([]), t)
  {
  }

  // ---- When a request succeeds ------------------------------------------------------------------------------

  /** In every run a refresh succeeds if and only if the token was handed out by an accepted login or refresh of the
      run less than fourteen days ago, was not used since, its user did not log out since and is ACTIVE now, and the
      new token was never handed out before. */
  lemma {:induction false} RefreshSucceedsIff(run: seq<Event>, t: Token, jti: nat, now: Time)
    ensures Succeeds(run, At(ToRefresh(t, jti), now)) <==>
      && t.subject.Some? && IsActive(run, t.subject.value)
      && (exists k: nat :: LiveSince(run, k, t) && now < run[k].now + 14 * DAY)
      && !WasIssued(run, Token(Refresh, t.subject, now + 14 * DAY, jti))
  {
    hide Run, Issues, Ends, IsActive, Serve, WasIssued;
    UnrevokedIffLive(run, t);
    RowsAlwaysMatch(run);
    if t.subject.Some? {
      UsersAreRemembered(run, t.subject.value);
    }
    StoredIffIssued(run, Token(Refresh, t.subject, now + 14 * DAY, jti));
    RefreshOnTables(Run(run), t, jti, now);
    LiveExpiry(run, t);
  }

  lemma LiveExpiry(run: seq<Event>, t: Token)
    ensures forall k: nat :: LiveSince(run, k, t) ==> k < |run| && t.expiresAt == run[k].now + 14 * DAY
  {
  }

  lemma RefreshOnTables(db: Db, t: Token, jti: nat, now: Time)
    requires RowsMatch(db)
    ensures Serve(db, At(ToRefresh(t, jti), now)).1 == None <==>
      && t.subject.Some? && t.subject.value in db.users && db.users[t.subject.value]
      && Unrevoked(db, t) && now < t.expiresAt
      && Token(Refresh, t.subject, now + 14 * DAY, jti) !in db.tokens
  {
  }

  /** The new token is then live, for the same user. */
  lemma {:induction false} RefreshHandsOver(run: seq<Event>, t: Token, jti: nat, now: Time)
    requires Succeeds(run, At(ToRefresh(t, jti), now))
    ensures var e := At(ToRefresh(t, jti), now);
      && t.subject.Some? && LiveSince(run + [e], |run|, Token(Refresh, t.subject, now + 14 * DAY, jti))
      && !(exists k: nat :: LiveSince(run + [e], k, t))
  {
    var e := At(ToRefresh(t, jti), now);
    hide Run, Serve;
    RefreshSucceedsIff(run, t, jti, now);
    assert (run + [e])[..|run|] == run && (run + [e])[|run|] == e;
    var next := Token(Refresh, t.subject, now + 14 * DAY, jti);
    var k0: nat :| LiveSince(run, k0, t) && now < run[k0].now + 14 * DAY;
    assert next != t;
    assert EndedAt(run + [e], |run|, t);
    forall k: nat ensures !LiveSince(run + [e], k, t) {
    }
  }

  /** A login succeeds if and only if the user is ACTIVE, the password matched and the token was never handed out
      before. */
  lemma {:induction false} LoginSucceedsIff(run: seq<Event>, user: UserId, passwordOk: bool, jti: nat, now: Time)
    ensures Succeeds(run, At(ToLogin(user, passwordOk, jti), now)) <==>
      && IsActive(run, user) && passwordOk
      && !WasIssued(run, Token(Refresh, Some(user), now + 14 * DAY, jti))
  {
    hide Run, Issues, IsActive, WasIssued;
    UsersAreRemembered(run, user);
    StoredIffIssued(run, Token(Refresh, Some(user), now + 14 * DAY, jti));
  }
}
