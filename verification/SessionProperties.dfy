/**
 What holds of the session service in every run, whatever the waits, and whatever other requests do in them:
 a token validates to its own user exactly until it expires or its revocation is asked for; a dead token stays dead;
 the mutual recursion ends by the Redis deadline; and audit failures change no answer.
 */
module SessionProperties {
  import opened SessionStore
  import opened SessionLogic

  // ----- which command is which

  /** The number of the DEL with which this deletion removes the token's key. */
  function DelNumber(env: Env, w: World, token: Token): nat
    requires Sound(w)
  {
    GetSession(env, w, token).0.n
  }

  /**
   The number of the statement with which it removes the token's audit row: after an SREM if the session was found.
   */
  function RowNumber(env: Env, w: World, token: Token): nat
    requires Sound(w)
  {
    DelNumber(env, w, token) + if GetSession(env, w, token).1.None? then 1 else 2
  }

  /** The number of the lookup of the user in a validation. */
  function LookupNumber(env: Env, w: World, token: Token): nat
    requires Sound(w)
  {
    GetSession(env, w, token).0.n
  }

  // ----- timed refinement of a plain map from tokens to sessions

  /** A session that GetSession returns is the one issued under the token, not expired, and was in Redis all along. */
  lemma FoundMeansIssued(env: Env, w: World, token: Token)
    requires Sound(w) && GetSession(env, w, token).1.Some?
    ensures var (w', found) := GetSession(env, w, token);
            && token in w'.issued && found.value == w'.issued[token]
            && w'.store.now <= found.value.expiresAt
            && (token in w.issued ==> token in w.store.sessions)
  {
    PassKeepsSound(env, w, 1 + env.wait(w.n));
    var w1 := Pass(env, w, 1 + env.wait(w.n));
    PassKeepsSound(env, w1, env.wait(w1.n));
    EvolvesTransitively(w, w1, Wait(env, w1));
  }

  lemma GoneMeansRevokedOrExpired(w: World, token: Token)
    requires Sound(w) && token in w.issued && !IsLive(w.store, token)
    ensures token in w.revoked || w.store.now >= w.issued[token].expiresAt
  {
    assert token !in w.store.sessions ==> Deletable(w, token);
  }

  /** A session that GetSession finds expired is the issued one. */
  lemma ExpiredIsIssued(env: Env, w: World, token: Token)
    requires Sound(w)
    requires var w1 := Pass(env, w, 1 + env.wait(w.n));
             IsLive(w1.store, token) && Wait(env, w1).store.now > w1.store.sessions[token].session.expiresAt
    ensures var w2 := Wait(env, Pass(env, w, 1 + env.wait(w.n)));
            token in w2.issued && w2.store.now > w2.issued[token].expiresAt
  {
    hide Pass;
    PassKeepsSound(env, w, 1 + env.wait(w.n));
    var w1 := Pass(env, w, 1 + env.wait(w.n));
    PassKeepsSound(env, w1, env.wait(w1.n));
  }

  /** The ways in which GetSession can end. */
  lemma GetSessionCases(env: Env, w: World, token: Token)
    requires Sound(w)
    ensures var w1 := Pass(env, w, 1 + env.wait(w.n));
            var w2 := Wait(env, w1);
            var (w', found) := GetSession(env, w, token);
            if !env.redisOk(w.n) || !IsLive(w1.store, token) then w' == w1 && found.None?
            else if w2.store.now > w1.store.sessions[token].session.expiresAt
            then w2.store.now <= w'.store.now && found.None?
            else w' == w2 && found.Some? && found.value == w1.store.sessions[token].session
  {
    hide Sound, Pass, KeysOnlyGo;
    var w1 := Pass(env, w, 1 + env.wait(w.n));
    if env.redisOk(w.n) && IsLive(w1.store, token)
       && Wait(env, w1).store.now > w1.store.sessions[token].session.expiresAt
    {
      ExpiredMayBeDeleted(env, w, token);
    }
  }

  /**
   If Redis answers the GET, an issued session is missed only if its revocation was asked for or its expiry has come.
   */
  lemma MissedMeansRevokedOrExpired(env: Env, w: World, token: Token)
    requires Sound(w) && env.redisOk(w.n) && token in w.issued && GetSession(env, w, token).1.None?
    ensures var w' := GetSession(env, w, token).0; token in w'.revoked || w'.store.now >= w.issued[token].expiresAt
  {
    hide Pass, GetSession;
    var w1 := Pass(env, w, 1 + env.wait(w.n));
    PassKeepsSound(env, w, 1 + env.wait(w.n));
    assert token in w1.issued && w1.issued[token] == w.issued[token];
    GetSessionCases(env, w, token);
    if IsLive(w1.store, token) {
      assert w1.store.sessions[token].session == w.issued[token];
    } else {
      GoneMeansRevokedOrExpired(w1, token);
    }
  }

  /**
   ValidateToken against the plain map, if its GET and its lookup succeed: a token whose revocation nobody has asked for
   answers its own user at every instant strictly before its session expires, and is denied at every instant after.
   */
  lemma ValidatesExactlyUntilExpiry(env: Env, w: World, token: Token)
    requires Sound(w) && token != "" && token in w.issued && w.issued[token].user in Users(env)
    ensures var (w', reply) := ValidateToken(env, w, token);
            var session := w.issued[token];
            && ((env.redisOk(w.n) && env.lookupOk(LookupNumber(env, w, token))
                 && token !in w'.revoked && w'.store.now < session.expiresAt) ==> reply == Valid(session.user))
            && (w.store.now > session.expiresAt ==> reply == Denied)
            && (reply == Valid(session.user) || reply == Denied)
  {
    var (w1, found) := GetSession(env, w, token);
    if found.Some? {
      FoundMeansIssued(env, w, token);
      PassKeepsSound(env, w1, env.wait(w1.n));
    } else if env.redisOk(w.n) {
      MissedMeansRevokedOrExpired(env, w, token);
    }
  }

  /** Every answer Valid is right: the token was issued to that user, and was unexpired when the clock was read. */
  lemma ValidMeansIssued(env: Env, w: World, token: Token)
    requires Sound(w) && ValidateToken(env, w, token).1.Valid?
    ensures var (w', reply) := ValidateToken(env, w, token);
            && token in w'.issued && w'.issued[token].user == reply.user && reply.user in Users(env)
            && (token in w.issued ==> token in w.store.sessions && w.store.now <= w.issued[token].expiresAt)
  {
    FoundMeansIssued(env, w, token);
    PassKeepsSound(env, GetSession(env, w, token).0, env.wait(GetSession(env, w, token).0.n));
  }

  /**
   Over whole runs, whatever fails in them: a token that the service returned validates after any further requests,
   until it expires, unless its revocation was asked for; after its expiry it never does.
   */
  lemma ReturnedTokensValidate(env: Env, w: World, request: Request, later: seq<Request>)
    requires IsFair(env) && Sound(w)
    ensures var (w1, reply) := Serve(env, w, request);
            reply.Issued? && reply.session.user in Users(env) ==>
              var w2 := Run(env, w1, later);
              var (w3, answer) := ValidateToken(env, w2, reply.token);
              && ((env.redisOk(w2.n) && env.lookupOk(LookupNumber(env, w2, reply.token))
                   && reply.token !in w3.revoked && w3.store.now < reply.session.expiresAt) ==>
                    answer == Valid(reply.session.user))
              && (w2.store.now > reply.session.expiresAt ==> answer == Denied)
  {
    var (w1, reply) := Serve(env, w, request);
    if reply.Issued? && reply.session.user in Users(env) {
      var w2 := Run(env, w1, later);
      assert reply.token in w2.issued && w2.issued[reply.token] == reply.session;
      hide Sound, Evolves, IsFair, Serve, Run, ValidateToken, LookupNumber;
      ValidatesExactlyUntilExpiry(env, w2, reply.token);
    }
  }

  // ----- dead tokens stay dead

  ghost predicate IsDead(w: World, token: Token) {
    token in w.issued && (token !in w.store.sessions || w.store.now > w.issued[token].expiresAt)
  }

  lemma DeadStaysDead(v: World, w: World, token: Token)
    requires Evolves(v, w) && IsDead(v, token)
    ensures IsDead(w, token)
  {}

  lemma DeadIsDenied(env: Env, w: World, token: Token)
    requires Sound(w) && IsDead(w, token)
    ensures ValidateToken(env, w, token).1 == Denied
  {
    if ValidateToken(env, w, token).1 != Denied {
      ValidMeansIssued(env, w, token);
    }
  }

  lemma DelClears(env: Env, w: World, token: Token)
    requires Sound(w) && Deletable(w, token) && token in w.issued
    ensures env.redisOk(w.n) ==> token !in Redis(env, w, DelSession(token)).0.store.sessions
    ensures Sound(Redis(env, w, DelSession(token)).0) && Evolves(w, Redis(env, w, DelSession(token)).0)
  {
    RedisKeepsSound(env, w, DelSession(token));
  }

  lemma RowClears(env: Env, w: World, token: Token)
    requires Sound(w) && Deletable(w, token) && token in w.issued
    ensures env.auditOk(w.n) ==> token !in Audit(env, w, DeleteAudit(token)).store.audit
    ensures token !in w.store.sessions ==> token !in Audit(env, w, DeleteAudit(token)).store.sessions
  {
    AuditKeepsSound(env, w, DeleteAudit(token));
  }

  /** The key is gone if DEL number del succeeded, the audit row if statement number row did. */
  ghost predicate Cleared(env: Env, w: World, token: Token, del: nat, row: nat) {
    && (env.redisOk(del) ==> token !in w.store.sessions)
    && (env.auditOk(row) ==> token !in w.store.audit)
  }

  lemma CleanUpClears(env: Env, w: World, token: Token)
    requires Sound(w) && Deletable(w, token) && token in w.issued
    ensures Cleared(env, CleanUp(env, w, token), token, w.n, w.n + 1)
  {
    var w1 := Redis(env, w, DelSession(token)).0;
    DelClears(env, w, token);
    PermissionStays(w, w1, DeleteAudit(token));
    RowClears(env, w1, token);
  }

  lemma DeleteFoundClears(env: Env, w: World, token: Token, user: User)
    requires Sound(w) && Deletable(w, token) && token in w.issued
    ensures Cleared(env, DeleteFound(env, w, token, user), token, w.n, w.n + 2)
  {
    var w1 := Redis(env, w, DelSession(token)).0;
    DelClears(env, w, token);
    PermissionStays(w, w1, RemoveMember(user, token));
    var w2 := Redis(env, w1, RemoveMember(user, token)).0;
    RedisKeepsSound(env, w1, RemoveMember(user, token));
    PermissionStays(w1, w2, DeleteAudit(token));
    RowClears(env, w2, token);
  }

  /**
   However the recursion goes, whatever else fails and whoever interferes: when DeleteSession returns, its own DEL
   having succeeded means that the key is gone, and its own DELETE having succeeded that the audit row is.
   */
  lemma DeleteSessionClears(env: Env, w: World, token: Token)
    requires Sound(w) && Deletable(w, token) && token in w.issued
    ensures Cleared(env, DeleteSession(env, w, token), token, DelNumber(env, w, token), RowNumber(env, w, token))
  {
    var (w1, found) := GetSession(env, w, token);
    PermissionStays(w, w1, DelSession(token));
    hide Sound, Evolves;
    if found.None? {
      CleanUpClears(env, w1, token);
    } else {
      DeleteFoundClears(env, w1, token, found.value.user);
    }
  }

  lemma LogoutKills(env: Env, w: World, token: Token)
    requires Sound(w) && token in w.issued && token != ""
    ensures env.redisOk(DelNumber(env, Mark(w, Revoke(token)), token)) ==> IsDead(ServeLogout(env, w, token).0, token)
  {
    DeleteSessionClears(env, Mark(w, Revoke(token)), token);
    hide Sound, Evolves;
  }

  lemma SwapKills(env: Env, w: World, token: Token, user: User)
    requires IsFair(env) && Sound(w) && token in w.issued
    ensures env.redisOk(DelNumber(env, Mark(w, Revoke(token)), token)) ==>
              IsDead(SwapSession(env, w, token, user).0, token)
  {
    var marked := Mark(w, Revoke(token));
    DeleteSessionClears(env, marked, token);
    var w1 := DeleteSession(env, marked, token);
    assert token in w1.issued;
    hide Sound, IsFair;
    if env.redisOk(DelNumber(env, marked, token)) {
      assert IsDead(w1, token);
      DeadStaysDead(w1, CreateSession(env, w1, user).0, token);
    }
  }

  /** The number of the DEL with which RefreshSession removes the old token's key, if it comes to that. */
  function RefreshDelNumber(env: Env, w: World, token: Token): nat
    requires Sound(w)
  {
    var (w1, session) := GetSession(env, w, token);
    if session.None? then w1.n
    else
      var w2 := FindUser(env, w1, session.value.user).0;
      DelNumber(env, Mark(w2, Revoke(token)), token)
  }

  lemma RefreshKills(env: Env, w: World, token: Token)
    requires IsFair(env) && Sound(w) && token in w.issued
    ensures RefreshSession(env, w, token).1.Issued? && env.redisOk(RefreshDelNumber(env, w, token)) ==>
              IsDead(RefreshSession(env, w, token).0, token)
  {
    var (w1, session) := GetSession(env, w, token);
    if session.Some? {
      var w2 := FindUser(env, w1, session.value.user).0;
      assert token in w2.issued;
      hide Sound, Evolves, IsFair, GetSession, SwapSession;
      SwapKills(env, w2, token, session.value.user);
    }
  }

  /** Was the request answered with success, and did the DEL of the token's key that is part of it succeed? */
  ghost predicate Ends(env: Env, w: World, request: Request, token: Token)
    requires IsFair(env) && Sound(w)
  {
    match request
    case Logout(named) => named == token != "" && env.redisOk(DelNumber(env, Mark(w, Revoke(token)), token))
    case Refresh(named) =>
      && named == token && ServeRefresh(env, w, token).1.Issued?
      && env.redisOk(RefreshDelNumber(env, ValidateToken(env, w, token).0, token))
    case _ => false
  }

  lemma EndingRequestsKill(env: Env, w: World, request: Request, token: Token)
    requires IsFair(env) && Sound(w) && token in w.issued
    ensures Ends(env, w, request, token) ==> IsDead(Serve(env, w, request).0, token)
  {
    var w1 := ValidateToken(env, w, token).0;
    assert token in w1.issued;
    hide Sound, Evolves, IsFair, RefreshSession, ValidateToken, ServeLogout, RefreshDelNumber, DelNumber;
    if request == Logout(token) && token != "" {
      LogoutKills(env, w, token);
    } else if request == Refresh(token) {
      RefreshKills(env, w1, token);
    }
  }

  /** A dead token is denied after any further requests. */
  lemma DeadTokensAreDenied(env: Env, w: World, token: Token, later: seq<Request>)
    requires IsFair(env) && Sound(w) && IsDead(w, token)
    ensures ValidateToken(env, Run(env, w, later), token).1 == Denied
  {
    DeadStaysDead(w, Run(env, w, later), token);
    DeadIsDenied(env, Run(env, w, later), token);
  }

  /**
   In every run: once a token has been logged out or refreshed away, the DEL of that request having succeeded, or has
   passed its expiry, no later ValidateToken succeeds on it, whatever requests follow, whatever else fails, and whatever
   others do.
   */
  lemma DeadTokensStayDead(env: Env, w: World, request: Request, token: Token, later: seq<Request>)
    requires IsFair(env) && Sound(w) && token in w.issued
    ensures Ends(env, w, request, token) || w.store.now > w.issued[token].expiresAt ==>
              ValidateToken(env, Run(env, Serve(env, w, request).0, later), token).1 == Denied
  {
    var w1 := Serve(env, w, request).0;
    EndingRequestsKill(env, w, request, token);
    if Ends(env, w, request, token) || w.store.now > w.issued[token].expiresAt {
      assert IsDead(w1, token);
      hide Sound, Evolves, IsFair, Serve, Run, ValidateToken, Ends;
      DeadTokensAreDenied(env, w1, token, later);
    }
  }

  // ----- and a logout whose DEL fails does not end the token's life

  /** In the waits numbered from first up to last no other request deletes the token's key. */
  ghost predicate OthersKeep(env: Env, token: Token, first: nat, last: nat) {
    forall n: nat, k: nat :: first <= n < last && k < |env.others(n)| ==> env.others(n)[k] != DelSession(token)
  }

  lemma ExecuteKeepsKey(w: World, command: Command, token: Token)
    requires token in w.store.sessions && command != DelSession(token)
    ensures token in Execute(w, command).store.sessions
  {}

  lemma {:induction false} InterferenceKeepsKey(w: World, commands: seq<Command>, token: Token)
    requires token in w.store.sessions && forall k :: 0 <= k < |commands| ==> commands[k] != DelSession(token)
    ensures token in Interfere(w, commands).store.sessions
  {
    hide Execute, Permitted;
    if commands != [] {
      InterferenceKeepsKey(w, commands[..|commands| - 1], token);
      ExecuteKeepsKey(Interfere(w, commands[..|commands| - 1]), commands[|commands| - 1], token);
    }
  }

  lemma PassKeepsKey(env: Env, w: World, time: nat, token: Token, first: nat, last: nat)
    requires OthersKeep(env, token, first, last) && first <= w.n < last && token in w.store.sessions
    ensures token in Pass(env, w, time).store.sessions
  {
    InterferenceKeepsKey(Later(w, time), env.others(w.n), token);
  }

  lemma CommandKeepsKey(env: Env, w: World, command: Command, token: Token, first: nat, last: nat)
    requires OthersKeep(env, token, first, last) && first <= w.n < last && token in w.store.sessions
    requires command == DelSession(token) ==> !env.redisOk(w.n)
    requires command == DelSession(token) || command.RemoveMember? || command.DeleteAudit?
    ensures token in Redis(env, w, command).0.store.sessions
    ensures !command.DelSession? ==> token in Audit(env, w, command).store.sessions
  {
    hide OthersKeep, Pass;
    PassKeepsKey(env, w, env.wait(w.n), token, first, last);
  }

  /** A lookup that ends before the session expires leaves the key. */
  lemma GetSessionKeepsKey(env: Env, w: World, token: Token, first: nat, last: nat)
    requires Sound(w) && OthersKeep(env, token, first, last) && token in w.store.sessions
    requires first <= w.n && GetSession(env, w, token).0.n <= last
    ensures var w' := GetSession(env, w, token).0;
            token in w.issued && (w'.store.now <= w.issued[token].expiresAt ==> token in w'.store.sessions)
  {
    hide OthersKeep, Pass, GetSession;
    GetSessionCases(env, w, token);
    var w1 := Pass(env, w, 1 + env.wait(w.n));
    PassKeepsSound(env, w, 1 + env.wait(w.n));
    PassKeepsKey(env, w, 1 + env.wait(w.n), token, first, last);
    assert w1.store.sessions[token].session == w.issued[token];
    hide Sound, Evolves;
    if GetSession(env, w, token).1.Some? {
      PassKeepsKey(env, w1, env.wait(w1.n), token, first, last);
    }
  }

  lemma CleanUpKeepsKey(env: Env, w: World, token: Token, first: nat, last: nat)
    requires Sound(w) && Deletable(w, token) && token in w.store.sessions && !env.redisOk(w.n)
    requires OthersKeep(env, token, first, last) && first <= w.n && w.n + 2 <= last
    ensures token in CleanUp(env, w, token).store.sessions
  {
    hide Sound, Evolves, OthersKeep, Redis, Audit;
    CommandKeepsKey(env, w, DelSession(token), token, first, last);
    CommandKeepsKey(env, Redis(env, w, DelSession(token)).0, DeleteAudit(token), token, first, last);
  }

  lemma DeleteFoundKeepsKey(env: Env, w: World, token: Token, user: User, first: nat, last: nat)
    requires Sound(w) && Deletable(w, token) && token in w.store.sessions && !env.redisOk(w.n)
    requires OthersKeep(env, token, first, last) && first <= w.n && w.n + 3 <= last
    ensures token in DeleteFound(env, w, token, user).store.sessions
  {
    hide Sound, Evolves, OthersKeep, Redis, Audit;
    var w1 := Redis(env, w, DelSession(token)).0;
    CommandKeepsKey(env, w, DelSession(token), token, first, last);
    CommandKeepsKey(env, w1, RemoveMember(user, token), token, first, last);
    CommandKeepsKey(env, Redis(env, w1, RemoveMember(user, token)).0, DeleteAudit(token), token, first, last);
  }

  lemma FailedDelKeepsKey(env: Env, w: World, token: Token)
    requires Sound(w) && Deletable(w, token) && token in w.store.sessions
    requires OthersKeep(env, token, w.n, DeleteSession(env, w, token).n) && !env.redisOk(DelNumber(env, w, token))
    ensures var w' := DeleteSession(env, w, token);
            token in w.issued && (w'.store.now <= w.issued[token].expiresAt ==> token in w'.store.sessions)
  {
    var last := DeleteSession(env, w, token).n;
    var (w1, found) := GetSession(env, w, token);
    PermissionStays(w, w1, DelSession(token));
    hide OthersKeep;
    GetSessionKeepsKey(env, w, token, w.n, last);
    hide Sound, GetSession;
    if token in w1.store.sessions {
      if found.None? {
        CleanUpKeepsKey(env, w1, token, w.n, last);
      } else {
        DeleteFoundKeepsKey(env, w1, token, found.value.user, w.n, last);
      }
    }
    assert w1.store.now <= DeleteSession(env, w, token).store.now;
  }

  /**
   A logout of a stored token ends its life if and only if its DEL succeeds or the session has expired anyway, if nobody
   else deletes the key meanwhile: the failure of the DEL is only logged, and the answer is the same.
   */
  lemma LogoutEndsExactlyIf(env: Env, w: World, token: Token)
    requires Sound(w) && token in w.store.sessions && token != ""
    requires OthersKeep(env, token, w.n, ServeLogout(env, w, token).0.n)
    ensures var (w', reply) := ServeLogout(env, w, token);
            && reply == LoggedOut && token in w.issued
            && (IsDead(w', token) <==>
                  env.redisOk(DelNumber(env, Mark(w, Revoke(token)), token))
                  || w'.store.now > w.issued[token].expiresAt)
  {
    assert token in w.issued;
    LogoutKills(env, w, token);
    var marked := Mark(w, Revoke(token));
    if !env.redisOk(DelNumber(env, marked, token)) {
      FailedDelKeepsKey(env, marked, token);
    }
    hide Sound, OthersKeep, DelNumber;
  }

  /**
   A token that is not dead does validate: at once, if nobody deletes the key, time allows, and the commands succeed.
   */
  lemma LivingTokensValidate(env: Env, w: World, token: Token)
    requires Sound(w) && token != "" && token in w.issued && !IsDead(w, token)
    requires OthersKeep(env, token, w.n, w.n + 1)
    requires w.issued[token].user in Users(env) && env.redisOk(w.n) && env.lookupOk(LookupNumber(env, w, token))
    ensures var (w', reply) := ValidateToken(env, w, token);
            w'.store.now < w.issued[token].expiresAt ==> reply == Valid(w.issued[token].user)
  {
    var w1 := Pass(env, w, 1 + env.wait(w.n));
    PassKeepsSound(env, w, 1 + env.wait(w.n));
    PassKeepsKey(env, w, 1 + env.wait(w.n), token, w.n, w.n + 1);
    PassKeepsSound(env, w1, env.wait(w1.n));
    assert w1.store.sessions[token].session == w.issued[token];
    assert w.issued[token].expiresAt <= w1.store.sessions[token].deadline;
    hide OthersKeep, Pass, Sound, GetSession;
    GetSessionCases(env, w, token);
    var (w2, found) := GetSession(env, w, token);
    PassKeepsSound(env, w2, env.wait(w2.n));
  }

  // ----- the recursion ends by the Redis deadline

  /**
   The mutual recursion of GetSession and DeleteSession on an issued token sends at most five commands and clock
   readings for each instant that Redis will still hold the key, whatever the waits and whatever others do.
   */
  lemma {:induction false} GetSessionEndsByDeadline(env: Env, w: World, token: Token)
    requires Sound(w) && token in w.issued
    ensures GetSession(env, w, token).0.n <= w.n + 5 * Remaining(w, token) + 2
    decreases Remaining(w, token), 0
  {
    hide Sound, Evolves, Pass, Remaining;
    var w1 := Pass(env, w, 1 + env.wait(w.n));
    if env.redisOk(w.n) && IsLive(w1.store, token) {
      var w2 := Wait(env, w1);
      if w2.store.now > w1.store.sessions[token].session.expiresAt {
        ExpiredMayBeDeleted(env, w, token);
        DeleteSessionEndsByDeadline(env, w2, token);
      }
    }
  }

  lemma {:induction false} DeleteSessionEndsByDeadline(env: Env, w: World, token: Token)
    requires Sound(w) && Deletable(w, token) && token in w.issued
    ensures DeleteSession(env, w, token).n <= w.n + 5 * Remaining(w, token) + 5
    decreases Remaining(w, token), 1
  {
    GetSessionEndsByDeadline(env, w, token);
    var (w1, found) := GetSession(env, w, token);
    PermissionStays(w, w1, DelSession(token));
  }
}
