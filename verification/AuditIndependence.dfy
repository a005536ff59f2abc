/**
 The audit table is a backup: two runs that differ only in which statements on user_sessions fail give the same
 answers throughout, and leave Redis in the same state. In either run every audit row agrees with the session it
 records. (session_service.go:80-84 and 135-138, session_repo.go)
 */
module AuditIndependence {
  import opened SessionStore
  import opened SessionLogic

  ghost predicate SameButAudit(v: World, w: World) {
    && v.store.now == w.store.now && v.store.sessions == w.store.sessions && v.store.index == w.store.index
    && v.ttl == w.ttl && v.n == w.n && v.issued == w.issued && v.revoked == w.revoked && v.orderly == w.orderly
  }

  /** The same outside, but for which audit statements fail. */
  ghost predicate Twins(env: Env, twin: Env) {
    twin == env.(auditOk := twin.auditOk)
  }

  ghost predicate FairTwins(env: Env, twin: Env) {
    Twins(env, twin) && IsFair(env) && IsFair(twin)
  }

  lemma SameNumber(v: World, w: World)
    requires SameButAudit(v, w)
    ensures v.n == w.n
  {}

  lemma ExecuteSame(v: World, w: World, command: Command)
    requires SameButAudit(v, w)
    ensures Permitted(v, command) == Permitted(w, command)
    ensures SameButAudit(Execute(v, command), Execute(w, command))
  {}

  lemma AuditCommandSame(v: World, w: World, command: Command)
    requires SameButAudit(v, w) && (command.UpsertAudit? || command.DeleteAudit? || command.DeleteUserAudit?)
    ensures SameButAudit(Execute(v, command), w) && SameButAudit(v, Execute(w, command))
  {}

  lemma {:induction false} InterfereSame(v: World, w: World, commands: seq<Command>)
    requires SameButAudit(v, w)
    ensures SameButAudit(Interfere(v, commands), Interfere(w, commands))
  {
    if commands != [] {
      var rest, last := commands[..|commands| - 1], commands[|commands| - 1];
      InterfereSame(v, w, rest);
      ExecuteSame(Interfere(v, rest), Interfere(w, rest), last);
    }
  }

  lemma OneOrderlySame(v: World, w: World, command: Command)
    requires SameButAudit(v, w)
    ensures IsOrderly(v, command) == IsOrderly(w, command)
  {}

  lemma {:induction false} OrderlySame(v: World, w: World, commands: seq<Command>)
    requires SameButAudit(v, w)
    ensures AreOrderly(v, commands) == AreOrderly(w, commands)
  {
    hide SameButAudit, Interfere, IsOrderly, IsCreation;
    var n := |commands|;
    if n >= 3 && IsCreation(commands[n - 3..]) {
      OrderlySame(v, w, commands[..n - 3]);
    } else if n > 0 {
      OrderlySame(v, w, commands[..n - 1]);
      InterfereSame(v, w, commands[..n - 1]);
      OneOrderlySame(Interfere(v, commands[..n - 1]), Interfere(w, commands[..n - 1]), commands[n - 1]);
    }
  }

  lemma PassSame(env: Env, twin: Env, v: World, w: World, time: nat)
    requires Twins(env, twin) && SameButAudit(v, w)
    ensures SameButAudit(Pass(env, v, time), Pass(twin, w, time))
  {
    var v', w' := Later(v, time), Later(w, time);
    OrderlySame(v', w', env.others(v.n));
    InterfereSame(v', w', env.others(v.n));
  }

  lemma RedisSame(env: Env, twin: Env, v: World, w: World, command: Command)
    requires Twins(env, twin) && SameButAudit(v, w)
    ensures SameButAudit(Redis(env, v, command).0, Redis(twin, w, command).0)
  {
    PassSame(env, twin, v, w, env.wait(v.n));
    ExecuteSame(Wait(env, v), Wait(twin, w), command);
  }

  lemma RedisAfterGapSame(env: Env, twin: Env, v: World, w: World, command: Command)
    requires Twins(env, twin) && SameButAudit(v, w)
    ensures SameButAudit(RedisAfterGap(env, v, command).0, RedisAfterGap(twin, w, command).0)
    ensures RedisAfterGap(env, v, command).1 == RedisAfterGap(twin, w, command).1
  {
    PassSame(env, twin, v, w, env.gap(v.n));
    ExecuteSame(Pass(env, v, env.gap(v.n)), Pass(twin, w, env.gap(w.n)), command);
  }

  /** Even if the statement fails on one side only. */
  lemma AuditSame(env: Env, twin: Env, v: World, w: World, command: Command)
    requires Twins(env, twin) && SameButAudit(v, w)
    requires (command.UpsertAudit? || command.DeleteAudit? || command.DeleteUserAudit?)
    ensures SameButAudit(Audit(env, v, command), Audit(twin, w, command))
  {
    PassSame(env, twin, v, w, env.wait(v.n));
    var v1, w1 := Wait(env, v), Wait(twin, w);
    AuditCommandSame(v1, w1, command);
    AuditCommandSame(Execute(v1, command), w1, command);
  }

  lemma CleanUpSame(env: Env, twin: Env, v: World, w: World, token: Token)
    requires Twins(env, twin) && Sound(v) && Sound(w) && Deletable(v, token) && Deletable(w, token)
    requires SameButAudit(v, w)
    ensures SameButAudit(CleanUp(env, v, token), CleanUp(twin, w, token))
  {
    RedisSame(env, twin, v, w, DelSession(token));
    AuditSame(env, twin, Redis(env, v, DelSession(token)).0, Redis(twin, w, DelSession(token)).0, DeleteAudit(token));
  }

  lemma DeleteFoundSame(env: Env, twin: Env, v: World, w: World, token: Token, user: User)
    requires Twins(env, twin) && Sound(v) && Sound(w) && Deletable(v, token) && Deletable(w, token)
    requires SameButAudit(v, w)
    ensures SameButAudit(DeleteFound(env, v, token, user), DeleteFound(twin, w, token, user))
  {
    RedisSame(env, twin, v, w, DelSession(token));
    var v1, w1 := Redis(env, v, DelSession(token)).0, Redis(twin, w, DelSession(token)).0;
    RedisSame(env, twin, v1, w1, RemoveMember(user, token));
    AuditSame(env, twin, Redis(env, v1, RemoveMember(user, token)).0, Redis(twin, w1, RemoveMember(user, token)).0,
              DeleteAudit(token));
  }

  lemma {:induction false} GetSessionSame(env: Env, twin: Env, v: World, w: World, token: Token)
    requires Twins(env, twin) && Sound(v) && Sound(w) && SameButAudit(v, w)
    ensures SameButAudit(GetSession(env, v, token).0, GetSession(twin, w, token).0)
    ensures GetSession(env, v, token).1 == GetSession(twin, w, token).1
    decreases if token in v.issued then 0 else 1, Remaining(v, token), 0
  {
    hide Sound, Evolves, Pass;
    PassSame(env, twin, v, w, 1 + env.wait(v.n));
    PassKeepsSound(env, v, 1 + env.wait(v.n));
    PassKeepsSound(twin, w, 1 + env.wait(w.n));
    var v1, w1 := Pass(env, v, 1 + env.wait(v.n)), Pass(twin, w, 1 + env.wait(w.n));
    if env.redisOk(v.n) && IsLive(v1.store, token) {
      PassSame(env, twin, v1, w1, env.wait(v1.n));
      var v2, w2 := Wait(env, v1), Wait(twin, w1);
      if v2.store.now > v1.store.sessions[token].session.expiresAt {
        ExpiredMayBeDeleted(env, v, token);
        ExpiredMayBeDeleted(twin, w, token);
        hide Remaining;
        DeleteSessionSame(env, twin, v2, w2, token);
      }
    }
  }

  lemma {:induction false} DeleteSessionSame(env: Env, twin: Env, v: World, w: World, token: Token)
    requires Twins(env, twin) && Sound(v) && Sound(w) && Deletable(v, token) && Deletable(w, token)
    requires SameButAudit(v, w)
    ensures SameButAudit(DeleteSession(env, v, token), DeleteSession(twin, w, token))
    decreases if token in v.issued then 0 else 1, Remaining(v, token), 1
  {
    GetSessionSame(env, twin, v, w, token);
    var (v1, found) := GetSession(env, v, token);
    var w1 := GetSession(twin, w, token).0;
    PermissionStays(v, v1, DelSession(token));
    PermissionStays(w, w1, DelSession(token));
    if found.None? {
      CleanUpSame(env, twin, v1, w1, token);
    } else {
      DeleteFoundSame(env, twin, v1, w1, token, found.value.user);
    }
  }

  lemma StoreSessionSame(env: Env, twin: Env, v: World, w: World, user: User)
    requires FairTwins(env, twin) && Sound(v) && Sound(w) && SameButAudit(v, w)
    ensures SameButAudit(StoreSession(env, v, user).0, StoreSession(twin, w, user).0)
    ensures StoreSession(env, v, user).1 == StoreSession(twin, w, user).1
  {
    hide Sound, Evolves;
    PassSame(env, twin, v, w, env.wait(v.n));
    var v0, w0 := Wait(env, v), Wait(twin, w);
    PassSame(env, twin, v0, w0, env.gap(v0.n));
    var v1, w1 := Pass(env, v0, env.gap(v0.n)), Pass(twin, w0, env.gap(w0.n));
    ExecuteSame(v1, w1, SetSession(Drawn(env, v1, v0.n), Session(user, v0.store.now + v0.ttl)));
  }

  lemma CreateSessionSame(env: Env, twin: Env, v: World, w: World, user: User)
    requires FairTwins(env, twin) && Sound(v) && Sound(w) && SameButAudit(v, w)
    ensures SameButAudit(CreateSession(env, v, user).0, CreateSession(twin, w, user).0)
    ensures CreateSession(env, v, user).1 == CreateSession(twin, w, user).1
  {
    StoreSessionSame(env, twin, v, w, user);
    var (v1, token) := StoreSession(env, v, user);
    var w1 := StoreSession(twin, w, user).0;
    if token.Some? {
      RedisAfterGapSame(env, twin, v1, w1, AddMember(user, token.value));
      var v2 := RedisAfterGap(env, v1, AddMember(user, token.value)).0;
      var w2 := RedisAfterGap(twin, w1, AddMember(user, token.value)).0;
      RedisAfterGapKeepsSound(env, v1, AddMember(user, token.value));
      RedisAfterGapSame(env, twin, v2, w2, ExpireIndex(user));
      AuditSame(env, twin, RedisAfterGap(env, v2, ExpireIndex(user)).0, RedisAfterGap(twin, w2, ExpireIndex(user)).0,
                UpsertAudit(token.value, v2.issued[token.value]));
    }
  }

  lemma RefreshSessionSame(env: Env, twin: Env, v: World, w: World, token: Token)
    requires FairTwins(env, twin) && Sound(v) && Sound(w) && SameButAudit(v, w)
    ensures SameButAudit(RefreshSession(env, v, token).0, RefreshSession(twin, w, token).0)
    ensures RefreshSession(env, v, token).1 == RefreshSession(twin, w, token).1
  {
    hide Sound, Evolves, IsFair, Pass, GetSession, DeleteSession, CreateSession, SameButAudit;
    GetSessionSame(env, twin, v, w, token);
    var (v1, found) := GetSession(env, v, token);
    var w1 := GetSession(twin, w, token).0;
    if found.Some? {
      PassSame(env, twin, v1, w1, env.wait(v1.n));
      SameNumber(v1, w1);
      var v2, w2 := FindUser(env, v1, found.value.user).0, FindUser(twin, w1, found.value.user).0;
      ExecuteSame(v2, w2, Revoke(token));
      var v3, w3 := Mark(v2, Revoke(token)), Mark(w2, Revoke(token));
      DeleteSessionSame(env, twin, v3, w3, token);
      CreateSessionSame(env, twin, DeleteSession(env, v3, token), DeleteSession(twin, w3, token), found.value.user);
    }
  }

  lemma {:induction false} DeleteListedSame(env: Env, twin: Env, v: World, w: World, tokens: seq<Token>)
    requires Twins(env, twin) && Sound(v) && Sound(w) && AllDeletable(v, tokens) && AllDeletable(w, tokens)
    requires SameButAudit(v, w)
    ensures SameButAudit(DeleteListed(env, v, tokens), DeleteListed(twin, w, tokens))
    decreases |tokens|
  {
    if tokens != [] {
      CleanUpSame(env, twin, v, w, tokens[0]);
      var v1, w1 := CleanUp(env, v, tokens[0]), CleanUp(twin, w, tokens[0]);
      AllStayDeletable(v, v1, tokens);
      AllStayDeletable(w, w1, tokens);
      DeleteListedSame(env, twin, v1, w1, tokens[1..]);
    }
  }

  lemma ListTokensSame(env: Env, twin: Env, v: World, w: World, user: User)
    requires FairTwins(env, twin) && Sound(v) && Sound(w) && SameButAudit(v, w)
    ensures SameButAudit(ListTokens(env, v, user).0, ListTokens(twin, w, user).0)
    ensures ListTokens(env, v, user).1 == ListTokens(twin, w, user).1
  {
    PassSame(env, twin, v, w, env.wait(v.n));
    ExecuteSame(Wait(env, v), Wait(twin, w), RevokeUser(user));
  }

  lemma DeleteUserSessionsSame(env: Env, twin: Env, v: World, w: World, user: User)
    requires FairTwins(env, twin) && Sound(v) && Sound(w) && SameButAudit(v, w)
    ensures SameButAudit(DeleteUserSessions(env, v, user), DeleteUserSessions(twin, w, user))
  {
    hide Pass, Sound, Evolves, IsFair, SameButAudit, ListTokens, DeleteListed, Redis, Audit;
    ListTokensSame(env, twin, v, w, user);
    var (v1, tokens) := ListTokens(env, v, user);
    var w1 := ListTokens(twin, w, user).0;
    DeleteListedSame(env, twin, v1, w1, tokens);
    var v2, w2 := DeleteListed(env, v1, tokens), DeleteListed(twin, w1, tokens);
    RedisSame(env, twin, v2, w2, DelIndex(user));
    AuditSame(env, twin, Redis(env, v2, DelIndex(user)).0, Redis(twin, w2, DelIndex(user)).0, DeleteUserAudit(user));
  }

  lemma ValidateTokenSame(env: Env, twin: Env, v: World, w: World, token: Token)
    requires Twins(env, twin) && Sound(v) && Sound(w) && SameButAudit(v, w)
    ensures SameButAudit(ValidateToken(env, v, token).0, ValidateToken(twin, w, token).0)
    ensures ValidateToken(env, v, token).1 == ValidateToken(twin, w, token).1
  {
    GetSessionSame(env, twin, v, w, token);
    var v1, w1 := GetSession(env, v, token).0, GetSession(twin, w, token).0;
    PassSame(env, twin, v1, w1, env.wait(v1.n));
  }

  lemma ServeSame(env: Env, twin: Env, v: World, w: World, request: Request)
    requires FairTwins(env, twin) && Sound(v) && Sound(w) && SameButAudit(v, w)
    ensures SameButAudit(Serve(env, v, request).0, Serve(twin, w, request).0)
    ensures Serve(env, v, request).1 == Serve(twin, w, request).1
  {
    hide Sound, Evolves, SameButAudit, IsFair, Pass, CreateSession, ValidateToken, RefreshSession, DeleteUserSessions,
      DeleteSession;
    SameNumber(v, w);
    match request
    case Login(username, password) =>
      PassSame(env, twin, v, w, env.wait(v.n));
      PassKeepsSound(env, v, env.wait(v.n));
      PassKeepsSound(twin, w, env.wait(w.n));
      if username in env.accounts {
        CreateSessionSame(env, twin, Wait(env, v), Wait(twin, w), env.accounts[username].user);
      }
    case Validate(token) => ValidateTokenSame(env, twin, v, w, token);
    case Logout(token) =>
      if token != "" {
        ExecuteSame(v, w, Revoke(token));
        DeleteSessionSame(env, twin, Mark(v, Revoke(token)), Mark(w, Revoke(token)), token);
      }
    case Refresh(token) =>
      ValidateTokenSame(env, twin, v, w, token);
      var (v1, reply) := ValidateToken(env, v, token);
      if reply.Valid? {
        RefreshSessionSame(env, twin, v1, ValidateToken(twin, w, token).0, token);
      }
    case LogoutEverywhere(user) => DeleteUserSessionsSame(env, twin, v, w, user);
  }

  /** The answers of a run. */
  function Replies(env: Env, w: World, requests: seq<Request>): seq<Reply>
    requires IsFair(env) && Sound(w)
  {
    if requests == [] then []
    else
      var before := requests[..|requests| - 1];
      Replies(env, w, before) + [Serve(env, Run(env, w, before), requests[|requests| - 1]).1]
  }

  /**
   Two runs from worlds that differ at most in the audit table, with the same requests, clock, Redis outcomes and
   interference but any other failures of audit statements, give the same answers and the same Redis contents.
   */
  lemma {:induction false} AuditFailuresChangeNoAnswer(env: Env, twin: Env, v: World, w: World, requests: seq<Request>)
    requires FairTwins(env, twin) && Sound(v) && Sound(w) && SameButAudit(v, w)
    ensures Replies(env, v, requests) == Replies(twin, w, requests)
    ensures SameButAudit(Run(env, v, requests), Run(twin, w, requests))
  {
    if requests != [] {
      var before, last := requests[..|requests| - 1], requests[|requests| - 1];
      AuditFailuresChangeNoAnswer(env, twin, v, w, before);
      ServeSame(env, twin, Run(env, v, before), Run(twin, w, before), last);
    }
  }

  /** In every run a token in both stores has the same user and expiry in both. */
  lemma AuditAgreesWithRedis(env: Env, w: World, requests: seq<Request>, token: Token)
    requires IsFair(env) && Sound(w)
    requires var store := Run(env, w, requests).store; token in store.audit && token in store.sessions
    ensures var store := Run(env, w, requests).store; store.audit[token] == store.sessions[token].session
  {}
}
