/**
 The exact effect of each request of the session service when no other request runs in its own waits (the clock still
 moves between any two commands, and commands may fail): lookups and deletions touch one token only, and refresh swaps
 one token for another and touches nothing else.
 */
module SessionExact {
  import opened SessionStore
  import opened SessionLogic
  import opened SessionProperties

  /** No other request runs in the waits numbered from first up to last. */
  ghost predicate Quiet(env: Env, first: nat, last: nat) {
    forall n: nat :: first <= n < last ==> env.others(n) == []
  }

  lemma QuietPass(env: Env, w: World, time: nat)
    requires env.others(w.n) == []
    ensures Pass(env, w, time) == Later(w, time)
  {}

  // ----- what a call about one token can change

  /** Index sets may have lost the token, and sets without another member are gone. */
  ghost predicate IndexLosesOnly(v: map<User, Index>, w: map<User, Index>, token: Token) {
    && (forall user :: user in w ==>
          user in v && w[user].deadline == v[user].deadline
          && v[user].members - {token} <= w[user].members <= v[user].members)
    && (forall user :: user in v && user !in w ==> v[user].members <= {token})
  }

  /** From v to w time has passed, and nothing but this token's key, row and index entry has gone. */
  ghost predicate TouchesOnly(v: World, w: World, token: Token) {
    && v.store.now <= w.store.now && w.issued == v.issued && w.ttl == v.ttl && w.revoked == v.revoked
    && w.store.sessions - {token} == v.store.sessions - {token}
    && w.store.audit - {token} == v.store.audit - {token}
    && IndexLosesOnly(v.store.index, w.store.index, token)
    && (token in w.store.sessions ==> token in v.store.sessions && w.store.sessions[token] == v.store.sessions[token])
  }

  lemma TouchesNoOther(v: World, w: World, token: Token)
    requires TouchesOnly(v, w, token)
    ensures w.issued == v.issued && w.store.sessions - {token} == v.store.sessions - {token}
    ensures w.store.audit - {token} == v.store.audit - {token}
  {}

  lemma IndexLosesOnlyTransitively(u: map<User, Index>, v: map<User, Index>, w: map<User, Index>, token: Token)
    requires IndexLosesOnly(u, v, token) && IndexLosesOnly(v, w, token)
    ensures IndexLosesOnly(u, w, token)
  {}

  lemma TouchesOnlyTransitively(u: World, v: World, w: World, token: Token)
    requires TouchesOnly(u, v, token) && TouchesOnly(v, w, token)
    ensures TouchesOnly(u, w, token)
  {
    IndexLosesOnlyTransitively(u.store.index, v.store.index, w.store.index, token);
    hide IndexLosesOnly;
  }

  lemma ApplyTouchesOnly(w: World, command: Command, token: Token, time: nat)
    requires command == DelSession(token) || command == DeleteAudit(token)
             || (command.RemoveMember? && command.token == token)
    ensures TouchesOnly(w, Execute(Later(w, time), command), token) && TouchesOnly(w, Later(w, time), token)
  {}

  lemma CommandTouchesOnly(env: Env, w: World, command: Command, token: Token)
    requires env.others(w.n) == []
    requires command == DelSession(token) || command == DeleteAudit(token)
             || (command.RemoveMember? && command.token == token)
    ensures TouchesOnly(w, Redis(env, w, command).0, token) && TouchesOnly(w, Audit(env, w, command), token)
  {
    QuietPass(env, w, env.wait(w.n));
    ApplyTouchesOnly(w, command, token, env.wait(w.n));
  }

  lemma CleanUpTouchesOnly(env: Env, w: World, token: Token)
    requires Sound(w) && Deletable(w, token) && Quiet(env, w.n, w.n + 2)
    ensures TouchesOnly(w, CleanUp(env, w, token), token)
  {
    hide Sound, Evolves, TouchesOnly, Redis, Audit;
    var w1 := Redis(env, w, DelSession(token)).0;
    CommandTouchesOnly(env, w, DelSession(token), token);
    CommandTouchesOnly(env, w1, DeleteAudit(token), token);
    TouchesOnlyTransitively(w, w1, CleanUp(env, w, token), token);
  }

  lemma DeleteFoundTouchesOnly(env: Env, w: World, token: Token, user: User)
    requires Sound(w) && Deletable(w, token) && Quiet(env, w.n, w.n + 3)
    ensures TouchesOnly(w, DeleteFound(env, w, token, user), token)
  {
    hide Sound, Evolves, TouchesOnly, Redis, Audit;
    var w1 := Redis(env, w, DelSession(token)).0;
    CommandTouchesOnly(env, w, DelSession(token), token);
    var w2 := Redis(env, w1, RemoveMember(user, token)).0;
    CommandTouchesOnly(env, w1, RemoveMember(user, token), token);
    CommandTouchesOnly(env, w2, DeleteAudit(token), token);
    TouchesOnlyTransitively(w, w1, w2, token);
    TouchesOnlyTransitively(w, w2, DeleteFound(env, w, token, user), token);
  }

  lemma LaterTouchesOnly(w: World, time: nat, token: Token)
    ensures TouchesOnly(w, Later(w, time), token) && Later(w, time).store.index == w.store.index
  {}

  lemma {:induction false} GetSessionTouchesOnly(env: Env, w: World, token: Token)
    requires Sound(w) && Quiet(env, w.n, GetSession(env, w, token).0.n)
    ensures var (w', found) := GetSession(env, w, token);
            TouchesOnly(w, w', token) && (found.Some? ==> w'.store.index == w.store.index)
    decreases if token in w.issued then 0 else 1, Remaining(w, token), 0
  {
    hide Sound, Evolves, TouchesOnly;
    QuietPass(env, w, 1 + env.wait(w.n));
    var w1 := Pass(env, w, 1 + env.wait(w.n));
    LaterTouchesOnly(w, 1 + env.wait(w.n), token);
    if env.redisOk(w.n) && IsLive(w1.store, token) {
      QuietPass(env, w1, env.wait(w1.n));
      LaterTouchesOnly(w1, env.wait(w1.n), token);
      var w2 := Wait(env, w1);
      TouchesOnlyTransitively(w, w1, w2, token);
      if w2.store.now > w1.store.sessions[token].session.expiresAt {
        ExpiredMayBeDeleted(env, w, token);
        DeleteSessionTouchesOnly(env, w2, token);
        TouchesOnlyTransitively(w, w2, DeleteSession(env, w2, token), token);
      }
    }
  }

  lemma {:induction false} DeleteSessionTouchesOnly(env: Env, w: World, token: Token)
    requires Sound(w) && Deletable(w, token) && Quiet(env, w.n, DeleteSession(env, w, token).n)
    ensures TouchesOnly(w, DeleteSession(env, w, token), token)
    decreases if token in w.issued then 0 else 1, Remaining(w, token), 1
  {
    var (w1, found) := GetSession(env, w, token);
    PermissionStays(w, w1, DelSession(token));
    hide Evolves, TouchesOnly;
    GetSessionTouchesOnly(env, w, token);
    hide Sound;
    if found.None? {
      CleanUpTouchesOnly(env, w1, token);
      TouchesOnlyTransitively(w, w1, CleanUp(env, w1, token), token);
    } else {
      DeleteFoundTouchesOnly(env, w1, token, found.value.user);
      TouchesOnlyTransitively(w, w1, DeleteFound(env, w1, token, found.value.user), token);
    }
  }

  /**
   A deletion takes out its token's key and row, as far as its own DEL and DELETE succeed, and touches nothing else.
   */
  lemma DeleteSessionForgets(env: Env, w: World, token: Token)
    requires Sound(w) && Deletable(w, token) && token in w.issued && Quiet(env, w.n, DeleteSession(env, w, token).n)
    ensures TouchesOnly(w, DeleteSession(env, w, token), token)
    ensures Cleared(env, DeleteSession(env, w, token), token, DelNumber(env, w, token), RowNumber(env, w, token))
  {
    DeleteSessionTouchesOnly(env, w, token);
    DeleteSessionClears(env, w, token);
  }

  lemma DeleteFoundUnindexes(env: Env, w: World, token: Token, user: User)
    requires Sound(w) && Deletable(w, token) && Quiet(env, w.n, w.n + 3) && env.redisOk(w.n + 1)
    ensures token !in Members(DeleteFound(env, w, token, user).store, user)
  {
    hide Sound, Evolves, Permitted;
    var w1 := Redis(env, w, DelSession(token)).0;
    QuietPass(env, w1, env.wait(w1.n));
    var w2 := Redis(env, w1, RemoveMember(user, token)).0;
    QuietPass(env, w2, env.wait(w2.n));
    assert token !in Members(w2.store, user);
  }

  /** A logout takes a token that it finds out of its user's set, if its SREM, the command after its DEL, succeeds. */
  lemma LogoutUnindexes(env: Env, w: World, token: Token)
    requires Sound(w) && token != "" && Quiet(env, w.n, ServeLogout(env, w, token).0.n)
    requires GetSession(env, Mark(w, Revoke(token)), token).1.Some?
    requires env.redisOk(DelNumber(env, Mark(w, Revoke(token)), token) + 1)
    ensures var user := GetSession(env, Mark(w, Revoke(token)), token).1.value.user;
            token !in Members(ServeLogout(env, w, token).0.store, user)
  {
    hide Sound, Evolves, GetSession, DeleteFound;
    var marked := Mark(w, Revoke(token));
    var (w1, found) := GetSession(env, marked, token);
    PermissionStays(marked, w1, DelSession(token));
    DeleteFoundUnindexes(env, w1, token, found.value.user);
  }

  // ----- CreateSession and RefreshSession

  /**
   From v to w one session of the user was created, with its row if statement number row succeeded, and nothing of other
   tokens and users has changed.
   */
  ghost predicate Creates(env: Env, v: World, w: World, user: User, token: Token, session: Session, row: nat) {
    && token !in v.issued && token !in v.revoked
    && session.user == user && session.expiresAt >= v.store.now + v.ttl
    && w.issued == v.issued[token := session] && w.revoked == v.revoked && w.ttl == v.ttl && v.store.now <= w.store.now
    && token in w.store.sessions && w.store.sessions[token].session == session
    && w.store.sessions - {token} == v.store.sessions - {token}
    && w.store.audit - {token} == v.store.audit - {token}
    && (token in w.store.audit <==> env.auditOk(row)) && (env.auditOk(row) ==> w.store.audit[token] == session)
    && w.store.index - {user} == v.store.index - {user}
  }

  /** From v to w time has passed. */
  ghost predicate OnlyTime(v: World, w: World) {
    && v.store.now <= w.store.now && w.ttl == v.ttl && w.issued == v.issued && w.revoked == v.revoked
    && w.store.sessions == v.store.sessions && w.store.audit == v.store.audit && w.store.index == v.store.index
  }

  /** From v to w time has passed and a session was stored, and nothing else. */
  ghost predicate Stores(v: World, w: World, user: User, token: Token) {
    && token !in v.issued && token !in v.revoked && token in w.store.sessions
    && w.issued == v.issued[token := w.store.sessions[token].session]
    && w.store.sessions == v.store.sessions[token := w.store.sessions[token]]
    && w.store.sessions[token].deadline == w.store.now + w.ttl
    && w.issued[token].user == user && w.issued[token].expiresAt >= v.store.now + v.ttl
    && w.store.audit == v.store.audit && w.store.index == v.store.index
    && w.revoked == v.revoked && w.ttl == v.ttl && v.store.now <= w.store.now
  }

  lemma StoreSessionStores(env: Env, w: World, user: User)
    requires Quiet(env, w.n, w.n + 2) && IsFair(env) && Sound(w)
    ensures var (w', token) := StoreSession(env, w, user);
            && (token.Some? <==> env.redisOk(w.n + 1))
            && if token.Some? then Stores(w, w', user, token.value) else OnlyTime(w, w')
  {
    hide Sound, Evolves;
    QuietPass(env, w, env.wait(w.n));
    var w0 := Wait(env, w);
    QuietPass(env, w0, env.gap(w0.n));
  }

  /** SADD and EXPIRE change one user's set and nothing else. */
  ghost predicate IndexOnly(v: World, w: World, user: User) {
    && v.store.now <= w.store.now && w.ttl == v.ttl && w.issued == v.issued && w.revoked == v.revoked
    && w.store.sessions == v.store.sessions && w.store.audit == v.store.audit
    && w.store.index - {user} == v.store.index - {user}
  }

  lemma IndexCommandsTouchIndexOnly(env: Env, w: World, command: Command, user: User)
    requires env.others(w.n) == [] && (command == ExpireIndex(user) || (command.AddMember? && command.user == user))
    ensures IndexOnly(w, RedisAfterGap(env, w, command).0, user) && RedisAfterGap(env, w, command).1 == env.redisOk(w.n)
  {
    QuietPass(env, w, env.gap(w.n));
  }

  /** From v to w time has passed and, if it was recorded, the token has got a row. */
  ghost predicate Records(v: World, w: World, token: Token, session: Session, recorded: bool) {
    && v.store.now <= w.store.now && w.ttl == v.ttl && w.issued == v.issued && w.revoked == v.revoked
    && w.store.sessions == v.store.sessions && w.store.index == v.store.index
    && w.store.audit == if recorded then v.store.audit[token := session] else v.store.audit
  }

  lemma UpsertRecords(env: Env, w: World, token: Token, session: Session)
    requires env.others(w.n) == [] && token !in w.store.audit
    ensures Records(w, Audit(env, w, UpsertAudit(token, session)), token, session, env.auditOk(w.n))
  {
    QuietPass(env, w, env.wait(w.n));
  }

  lemma StoredIndexedRecorded(env: Env, w: World, w1: World, w2: World, w3: World, w4: World, user: User, token: Token,
                              session: Session, row: nat)
    requires Stores(w, w1, user, token) && token !in w.store.audit && session == w1.store.sessions[token].session
    requires IndexOnly(w1, w2, user) && IndexOnly(w2, w3, user) && Records(w3, w4, token, session, env.auditOk(row))
    ensures Creates(env, w, w4, user, token, session, row)
  {}

  /** Nobody runs in the five waits of a creation, if there are that many. */
  lemma QuietAt(env: Env, first: nat, last: nat)
    requires Quiet(env, first, last)
    ensures first + 2 <= last ==> Quiet(env, first, first + 2)
    ensures first + 3 <= last ==> env.others(first + 2) == []
    ensures first + 5 <= last ==> env.others(first + 3) == env.others(first + 4) == []
  {}

  lemma NewTokenHasNoRow(w: World, w1: World, user: User, token: Token)
    requires Sound(w) && Stores(w, w1, user, token)
    ensures token !in w.store.audit && token in w1.store.sessions
  {}

  lemma StillIssued(w: World, w1: World, w2: World, user: User, token: Token)
    requires Stores(w, w1, user, token) && IndexOnly(w1, w2, user)
    ensures token in w2.issued && w2.issued[token] == w1.store.sessions[token].session
  {}

  /** SADD, EXPIRE and the audit row. */
  lemma RestCreates(env: Env, w: World, w1: World, user: User, token: Token, session: Session)
    requires Stores(w, w1, user, token) && token !in w.store.audit && session == w1.store.sessions[token].session
    requires env.others(w1.n) == env.others(w1.n + 1) == env.others(w1.n + 2) == []
    ensures var w2 := RedisAfterGap(env, w1, AddMember(user, token)).0;
            var w3 := RedisAfterGap(env, w2, ExpireIndex(user)).0;
            Creates(env, w, Audit(env, w3, UpsertAudit(token, session)), user, token, session, w1.n + 2)
  {
    hide RedisAfterGap, Audit, Creates;
    var w2 := RedisAfterGap(env, w1, AddMember(user, token)).0;
    IndexCommandsTouchIndexOnly(env, w1, AddMember(user, token), user);
    var w3 := RedisAfterGap(env, w2, ExpireIndex(user)).0;
    IndexCommandsTouchIndexOnly(env, w2, ExpireIndex(user), user);
    UpsertRecords(env, w3, token, session);
    StoredIndexedRecorded(env, w, w1, w2, w3, Audit(env, w3, UpsertAudit(token, session)), user, token, session, w3.n);
  }

  /**
   A creation is answered with a token exactly if its SET and its SADD succeed, and adds that one session and nothing
   else; if the SET succeeds and the SADD fails, a session is stored all the same.
   */
  lemma CreateSessionCreates(env: Env, w: World, user: User)
    requires IsFair(env) && Sound(w) && Quiet(env, w.n, CreateSession(env, w, user).0.n)
    ensures var (w', reply) := CreateSession(env, w, user);
            && (reply.Issued? <==> env.redisOk(w.n + 1) && env.redisOk(w.n + 2))
            && (reply.Issued? ==> Creates(env, w, w', user, reply.token, reply.session, w'.n - 1))
            && (!env.redisOk(w.n + 1) ==> OnlyTime(w, w'))
            && (reply.Denied? && env.redisOk(w.n + 1) ==>
                  exists token :: Stores(w, StoreSession(env, w, user).0, user, token)
                                  && IndexOnly(StoreSession(env, w, user).0, w', user))
  {
    hide Evolves, IsFair, StoreSession, RedisAfterGap, Audit, Creates, Stores, IndexOnly, Quiet;
    var (w1, stored) := StoreSession(env, w, user);
    QuietAt(env, w.n, CreateSession(env, w, user).0.n);
    StoreSessionStores(env, w, user);
    if stored.Some? {
      var token := stored.value;
      NewTokenHasNoRow(w, w1, user, token);
      var (w2, added) := RedisAfterGap(env, w1, AddMember(user, token));
      IndexCommandsTouchIndexOnly(env, w1, AddMember(user, token), user);
      if added {
        RedisAfterGapKeepsSound(env, w1, AddMember(user, token));
        hide Sound;
        StillIssued(w, w1, w2, user, token);
        RestCreates(env, w, w1, user, token, w2.issued[token]);
      }
    }
  }

  /**
   What a successful refresh has done to everything but the user's index set. The old token's key and row are gone if
   DEL number del and statement number row succeeded, the new one has its row if statement number upsert did.
   */
  ghost predicate Swaps(env: Env, v: World, w: World, gone: Token, token: Token, session: Session,
                        del: nat, row: nat, upsert: nat)
  {
    && gone in v.issued && token !in v.issued
    && session.user == v.issued[gone].user && session.expiresAt >= v.issued[gone].expiresAt
    && Cleared(env, w, gone, del, row)
    && token in w.store.sessions && w.store.sessions[token].session == session
    && (env.auditOk(upsert) ==> token in w.store.audit && w.store.audit[token] == session)
    && w.store.sessions - {gone, token} == v.store.sessions - {gone, token}
    && w.store.audit - {gone, token} == v.store.audit - {gone, token}
    && w.issued == v.issued[token := session]
  }

  lemma ForgetThenCreate(env: Env, v: World, w1: World, w: World, gone: Token, token: Token, session: Session,
                         del: nat, row: nat, upsert: nat)
    requires gone in v.issued && v.issued[gone].expiresAt <= v.store.now + v.ttl
    requires TouchesOnly(v, w1, gone) && Cleared(env, w1, gone, del, row)
    requires Creates(env, w1, w, v.issued[gone].user, token, session, upsert)
    ensures Swaps(env, v, w, gone, token, session, del, row, upsert) && w.revoked == v.revoked
  {
    hide IndexLosesOnly;
    assert token != gone;
    assert gone in w.store.sessions <==> gone in w.store.sessions - {token};
    assert gone in w1.store.sessions <==> gone in w1.store.sessions - {token};
    assert gone in w.store.audit <==> gone in w.store.audit - {token};
    assert gone in w1.store.audit <==> gone in w1.store.audit - {token};
    assert (w.store.sessions - {token}) - {gone} == w.store.sessions - {gone, token};
    assert (w.store.audit - {token}) - {gone} == w.store.audit - {gone, token};
    assert (v.store.sessions - {gone}) - {token} == v.store.sessions - {gone, token};
    assert (v.store.audit - {gone}) - {token} == v.store.audit - {gone, token};
    assert (w1.store.sessions - {token}) - {gone} == (w1.store.sessions - {gone}) - {token};
    assert (w1.store.audit - {token}) - {gone} == (w1.store.audit - {gone}) - {token};
  }

  lemma ExpiresInTime(w: World, token: Token)
    requires Sound(w) && token in w.issued
    ensures w.issued[token].expiresAt <= w.store.now + w.ttl
  {}

  lemma SwapsAfterTime(env: Env, u: World, v: World, w: World, gone: Token, token: Token, session: Session,
                       del: nat, row: nat, upsert: nat)
    requires Swaps(env, v, w, gone, token, session, del, row, upsert)
    requires u.issued == v.issued && u.store.sessions - {gone} == v.store.sessions - {gone}
    requires u.store.audit - {gone} == v.store.audit - {gone}
    ensures Swaps(env, u, w, gone, token, session, del, row, upsert)
  {
    assert (u.store.sessions - {gone}) - {token} == u.store.sessions - {gone, token};
    assert (u.store.audit - {gone}) - {token} == u.store.audit - {gone, token};
    assert (v.store.sessions - {gone}) - {token} == v.store.sessions - {gone, token};
    assert (v.store.audit - {gone}) - {token} == v.store.audit - {gone, token};
  }

  lemma SwapSessionSwaps(env: Env, w: World, token: Token, user: User)
    requires IsFair(env) && Sound(w) && token in w.issued && w.issued[token].user == user
    requires Quiet(env, w.n, SwapSession(env, w, token, user).0.n) && SwapSession(env, w, token, user).1.Issued?
    ensures var (marked, (w', reply)) := (Mark(w, Revoke(token)), SwapSession(env, w, token, user));
            && w'.revoked == w.revoked + {token}
            && Swaps(env, w, w', token, reply.token, reply.session,
                     DelNumber(env, marked, token), RowNumber(env, marked, token), w'.n - 1)
  {
    hide Sound, Evolves, IsFair, TouchesOnly, Cleared, Creates, Swaps, DeleteSession, CreateSession, DelNumber,
      RowNumber;
    var marked := Mark(w, Revoke(token));
    var w1 := DeleteSession(env, marked, token);
    ExpiresInTime(marked, token);
    DeleteSessionForgets(env, marked, token);
    CreateSessionCreates(env, w1, user);
    var (w2, reply) := CreateSession(env, w1, user);
    ForgetThenCreate(env, marked, w1, w2, token, reply.token, reply.session,
                     DelNumber(env, marked, token), RowNumber(env, marked, token), w2.n - 1);
    assert marked.store == w.store && marked.issued == w.issued;
    SwapsAfterTime(env, w, marked, w2, token, reply.token, reply.session,
                   DelNumber(env, marked, token), RowNumber(env, marked, token), w2.n - 1);
  }

  /** The number of the statement with which RefreshSession removes the old token's row, if it comes to that. */
  function RefreshRowNumber(env: Env, w: World, token: Token): nat
    requires Sound(w)
  {
    var (w1, session) := GetSession(env, w, token);
    if session.None? then w1.n else RowNumber(env, Mark(FindUser(env, w1, session.value.user).0, Revoke(token)), token)
  }

  /**
   Refresh is an exact swap, even if the old session expires between the check and the deletion: the old token is in
   neither store as far as its DEL and DELETE succeed, a fresh one of the same user expires no earlier, and every other
   session is untouched.
   */
  lemma RefreshIsAnExactSwap(env: Env, w: World, token: Token)
    requires IsFair(env) && Sound(w) && Quiet(env, w.n, RefreshSession(env, w, token).0.n)
    ensures var (w', reply) := RefreshSession(env, w, token);
            reply.Issued? ==>
              Swaps(env, w, w', token, reply.token, reply.session,
                    RefreshDelNumber(env, w, token), RefreshRowNumber(env, w, token), w'.n - 1)
  {
    hide Sound, Evolves, IsFair, Swaps, GetSession, SwapSession, TouchesOnly, DelNumber, RowNumber;
    var (w3, reply) := RefreshSession(env, w, token);
    if reply.Issued? {
      var (w1, found) := GetSession(env, w, token);
      FoundMeansIssued(env, w, token);
      GetSessionTouchesOnly(env, w, token);
      TouchesNoOther(w, w1, token);
      QuietPass(env, w1, env.wait(w1.n));
      var w2 := FindUser(env, w1, found.value.user).0;
      SwapSessionSwaps(env, w2, token, found.value.user);
      SwapsAfterTime(env, w, w2, w3, token, reply.token, reply.session,
                     RefreshDelNumber(env, w, token), RefreshRowNumber(env, w, token), w3.n - 1);
    }
  }
}
