/**
 When a request of the authentication service is answered with success, whatever runs in its waits and whatever else
 fails: each command on which the answer depends is named by its number. (auth_service.go:90-145,
 session_service.go:48-163, auth_handler.go:124-150)
 */
module SessionAnswers {
  import opened SessionStore
  import opened SessionLogic

  /**
   CreateSession answers with a token exactly if its SET and its SADD succeed, the second and the third of its commands
   (the first number is that of the clock). The session is the user's, and expires one time to live after the clock was
   read.
   */
  lemma CreationIsAnsweredExactlyIf(env: Env, w: World, user: User)
    requires IsFair(env) && Sound(w)
    ensures var reply := CreateSession(env, w, user).1;
            && (reply.Issued? <==> env.redisOk(w.n + 1) && env.redisOk(w.n + 2))
            && (reply.Issued? ==>
                  reply.session.user == user && reply.session.expiresAt == Wait(env, w).store.now + w.ttl)
  {
    var w0 := Wait(env, w);
    PassKeepsSound(env, w, env.wait(w.n));
    var (w1, stored) := StoreSession(env, w, user);
    if stored.Some? {
      RedisAfterGapKeepsSound(env, w1, AddMember(user, stored.value));
      assert w1.issued[stored.value].expiresAt == w0.store.now + w0.ttl;
    }
    hide Sound, IsFair, KeysOnlyGo, Pass;
  }

  /**
   When the SET has gone through, the session expires one time to live after the clock was read, and its key is kept for
   one time to live from now.
   */
  lemma StoredForOneTimeToLive(env: Env, w: World, user: User)
    requires IsFair(env) && Sound(w) && StoreSession(env, w, user).1.Some?
    ensures var (w', token) := StoreSession(env, w, user);
            && token.value in w'.store.sessions
            && w'.store.sessions[token.value] ==
               Entry(Session(user, Wait(env, w).store.now + w.ttl), w'.store.now + w.ttl)
  {
    var w0 := Wait(env, w);
    PassKeepsSound(env, w, env.wait(w.n));
    PassKeepsSound(env, w0, env.gap(w0.n));
    hide Sound, IsFair, KeysOnlyGo, Pass;
  }

  // ----- login

  /**
   A login succeeds exactly if both strings are non-empty, the lookup succeeds, the account exists, its hash matches,
   and the SET and the SADD of the creation succeed; the session is then the account's.
   */
  lemma LoginIsAnsweredExactlyIf(env: Env, w: World, username: string, password: string)
    requires IsFair(env) && Sound(w)
    ensures var reply := ServeLogin(env, w, username, password).1;
            && (reply.Issued? <==>
                  && username != "" && password != "" && env.lookupOk(w.n) && username in env.accounts
                  && env.matches(env.accounts[username].hash, password)
                  && env.redisOk(w.n + 2) && env.redisOk(w.n + 3))
            && (reply.Issued? ==> reply.session.user == env.accounts[username].user)
            && (reply.Issued? || reply == Denied)
  {
    hide Sound, Evolves, IsFair, CreateSession, Pass;
    if username in env.accounts {
      PassKeepsSound(env, w, env.wait(w.n));
      CreationIsAnsweredExactlyIf(env, Wait(env, w), env.accounts[username].user);
    }
  }

  // ----- refresh

  /** The user whose session GetSession finds, if it finds one and the lookup of the user succeeds. */
  predicate IsFound(env: Env, w: World, token: Token)
    requires Sound(w)
  {
    var (w1, session) := GetSession(env, w, token);
    session.Some? && env.lookupOk(w1.n) && session.value.user in Users(env)
  }

  /** The number of the SET with which RefreshSession creates the new session, if it comes to that. */
  function RefreshSetNumber(env: Env, w: World, token: Token): nat
    requires Sound(w)
  {
    var (w1, session) := GetSession(env, w, token);
    if session.None? then w1.n
    else
      var w2 := FindUser(env, w1, session.value.user).0;
      DeleteSession(env, Mark(w2, Revoke(token)), token).n + 1
  }

  lemma SwapIsAnsweredExactlyIf(env: Env, w: World, token: Token, user: User)
    requires IsFair(env) && Sound(w)
    ensures var reply := SwapSession(env, w, token, user).1;
            var n := DeleteSession(env, Mark(w, Revoke(token)), token).n;
            && (reply.Issued? <==> env.redisOk(n + 1) && env.redisOk(n + 2))
            && (reply.Issued? ==> reply.session.user == user)
  {
    hide Sound, Evolves, IsFair, DeleteSession, CreateSession;
    CreationIsAnsweredExactlyIf(env, DeleteSession(env, Mark(w, Revoke(token)), token), user);
  }

  /**
   A refresh succeeds exactly if the session is found, its user is, and the SET and the SADD of the new session succeed,
   whatever becomes of the deletion of the old one; the new session is the same user's.
   */
  lemma RefreshIsAnsweredExactlyIf(env: Env, w: World, token: Token)
    requires IsFair(env) && Sound(w)
    ensures var reply := RefreshSession(env, w, token).1;
            var n := RefreshSetNumber(env, w, token);
            && (reply.Issued? <==> IsFound(env, w, token) && env.redisOk(n) && env.redisOk(n + 1))
            && (reply.Issued? ==> reply.session.user == GetSession(env, w, token).1.value.user)
            && (reply.Issued? || reply == Denied)
  {
    hide Sound, Evolves, IsFair, GetSession, DeleteSession, SwapSession, Pass;
    var (w1, session) := GetSession(env, w, token);
    if session.Some? {
      SwapIsAnsweredExactlyIf(env, FindUser(env, w1, session.value.user).0, token, session.value.user);
    }
  }

  /** A validation succeeds exactly if the token is not empty, the session is found, and its user is. */
  lemma ValidationIsAnsweredExactlyIf(env: Env, w: World, token: Token)
    requires Sound(w)
    ensures var reply := ValidateToken(env, w, token).1;
            && (reply.Valid? <==> token != "" && IsFound(env, w, token))
            && (reply.Valid? ==> reply.user == GetSession(env, w, token).1.value.user)
            && (reply.Valid? || reply == Denied)
  {
    hide Sound, Evolves, GetSession, Pass;
  }

  /** The refresh handler succeeds exactly if the validation does, and the refresh after it. */
  lemma RefreshRequestIsAnsweredExactlyIf(env: Env, w: World, token: Token)
    requires IsFair(env) && Sound(w)
    ensures var reply := ServeRefresh(env, w, token).1;
            var w1 := ValidateToken(env, w, token).0;
            var n := RefreshSetNumber(env, w1, token);
            && (reply.Issued? <==>
                  && token != "" && IsFound(env, w, token)
                  && IsFound(env, w1, token) && env.redisOk(n) && env.redisOk(n + 1))
            && (reply.Issued? ==> reply.session.user == GetSession(env, w1, token).1.value.user)
            && (reply.Issued? || reply == Denied)
  {
    hide Sound, Evolves, IsFair, IsFound, ValidateToken, GetSession, RefreshSession, RefreshSetNumber;
    ValidationIsAnsweredExactlyIf(env, w, token);
    RefreshIsAnsweredExactlyIf(env, ValidateToken(env, w, token).0, token);
  }

  // ----- logout

  /** A logout succeeds for every token but the empty one, whatever fails and whether or not there is such a session. */
  lemma LogoutIsAnsweredExactlyIf(env: Env, w: World, token: Token)
    requires Sound(w)
    ensures ServeLogout(env, w, token).1 == if token == "" then Denied else LoggedOut
  {
    hide Sound, Evolves, DeleteSession;
  }
}
