/**
 The session and authentication services as the source writes them: one command after another on stores that are
 changed in place (tcp-auth-server/internal/service, pkg/redis/client.go, internal/repository/session_repo.go). Every
 method is proved to do exactly what the function of the same name in SessionLogic says.
 */
module SessionService {
  import opened Options
  import opened SessionStore
  import Logic = SessionLogic
  import opened SessionLogic

  class Service {
    const env: Env
    const ttl: int
    var now: int
    var sessions: map<Token, Entry>
    var index: map<User, Index>
    var audit: map<Token, Session>
    var n: nat
    var issued: map<Token, Session>
    var revoked: set<Token>
    var orderly: bool

    function W(): World
      reads this
    {
      World(Store(now, sessions, index, audit), ttl, n, issued, revoked, orderly)
    }

    ghost predicate Valid()
      reads this
    {
      IsFair(env) && Sound(W())
    }

    constructor (env: Env, ttl: int, now: int)
      requires IsFair(env)
      ensures Valid() && W() == World(Store(now, map[], map[], map[]), ttl, 0, map[], {}, true)
    {
      this.env, this.ttl, this.now := env, ttl, now;
      sessions, index, audit, n, issued, revoked, orderly := map[], map[], map[], 0, map[], {}, true;
    }

    method SAdd(user: User, token: Token)
      modifies this
      ensures W() == Execute(old(W()), AddMember(user, token))
    {
      if IndexIsLive(W().store, user) {
        index := index[user := index[user].(members := index[user].members + {token})];
      } else {
        assert {} + {token} == {token};
        index := index[user := Index({token}, None)];
      }
    }

    /** A set without members is gone. */
    method SRem(user: User, token: Token)
      modifies this
      ensures W() == Execute(old(W()), RemoveMember(user, token))
    {
      if IndexIsLive(W().store, user) {
        index := index[user := index[user].(members := index[user].members - {token})];
        if index[user].members == {} {
          index := index - {user};
        }
      }
    }

    /** One command, executed on the stores in place. */
    method Do(command: Command)
      modifies this
      ensures W() == Execute(old(W()), command)
    {
      match command
      case SetSession(token, session) =>
        sessions := sessions[token := Entry(session, now + ttl)];
        issued := issued[token := session];
      case DelSession(token) => sessions := sessions - {token};
      case AddMember(user, token) => SAdd(user, token);
      case ExpireIndex(user) =>
        if IndexIsLive(W().store, user) {
          index := index[user := index[user].(deadline := Some(now + ttl))];
        }
      case RemoveMember(user, token) => SRem(user, token);
      case DelIndex(user) => index := index - {user};
      case UpsertAudit(token, session) =>
        if token in audit {
          audit := audit[token := audit[token].(expiresAt := session.expiresAt)];
        } else {
          audit := audit[token := session];
        }
      case DeleteAudit(token) => audit := audit - {token};
      case DeleteUserAudit(user) => audit := map token | token in audit && audit[token].user != user :: audit[token];
      case Revoke(token) => revoked := revoked + {token};
      case RevokeUser(user) => revoked := revoked + TokensOf(W(), user);
    }

    /** Other requests run their commands. */
    method RunOthers(commands: seq<Command>)
      modifies this
      ensures W() == Interfere(old(W()), commands)
    {
      hide Execute, Permitted;
      for k := 0 to |commands|
        invariant W() == Interfere(old(W()), commands[..k])
      {
        assert commands[..k + 1][..k] == commands[..k];
        if Permitted(W(), commands[k]) {
          Do(commands[k]);
        }
      }
      assert commands[..|commands|] == commands;
    }

    /** Time passes, and other requests run. */
    method Pass(time: nat)
      modifies this
      ensures W() == SessionStore.Pass(env, old(W()), time)
    {
      hide Interfere, AreOrderly;
      var commands := env.others(n);
      now, n := now + time, n + 1;
      var inOrder := orderly && AreOrderly(W(), commands);
      RunOthers(commands);
      orderly := inOrder;
    }

    /** A Redis command of the client. */
    method Redis(command: Command) returns (ok: bool)
      modifies this
      ensures (W(), ok) == Logic.Redis(env, old(W()), command)
    {
      ok := env.redisOk(n);
      Pass(env.wait(n));
      if ok { Do(command); }
    }

    method RedisAfterGap(command: Command) returns (ok: bool)
      modifies this
      ensures (W(), ok) == Logic.RedisAfterGap(env, old(W()), command)
    {
      ok := env.redisOk(n);
      Pass(env.gap(n));
      if ok { Do(command); }
    }

    /** A statement of the session repository; its error is ignored. */
    method Audit(command: Command)
      modifies this
      ensures W() == Logic.Audit(env, old(W()), command)
    {
      var ok := env.auditOk(n);
      Pass(env.wait(n));
      if ok { Do(command); }
    }

    // ----- session_service.go

    method CleanUp(token: Token)
      requires Valid() && Deletable(W(), token)
      modifies this
      ensures Valid() && W() == Logic.CleanUp(env, old(W()), token)
    {
      ghost var after := Logic.CleanUp(env, W(), token);
      hide Sound, Evolves;
      var _ := Redis(DelSession(token));
      Audit(DeleteAudit(token));
    }

    method DeleteFound(token: Token, user: User)
      requires Valid() && Deletable(W(), token)
      modifies this
      ensures Valid() && W() == Logic.DeleteFound(env, old(W()), token, user)
    {
      ghost var after := Logic.DeleteFound(env, W(), token, user);
      hide Sound, Evolves;
      var _ := Redis(DelSession(token));
      var _ := Redis(RemoveMember(user, token));
      Audit(DeleteAudit(token));
    }

    method GetSession(token: Token) returns (found: Option<Session>)
      requires Valid()
      modifies this
      ensures Valid() && (W(), found) == Logic.GetSession(env, old(W()), token)
      decreases if token in issued then 0 else 1, Remaining(W(), token), 0
    {
      ghost var start, after := W(), Logic.GetSession(env, W(), token).0;
      var ok := env.redisOk(n);
      Pass(1 + env.wait(n));
      if !ok || !IsLive(W().store, token) { return None; }
      var session := sessions[token].session;
      Pass(env.wait(n));
      if now > session.expiresAt {
        ExpiredMayBeDeleted(env, start, token);
        DeleteSession(token);
        return None;
      }
      return Some(session);
    }

    method DeleteSession(token: Token)
      requires Valid() && Deletable(W(), token)
      modifies this
      ensures Valid() && W() == Logic.DeleteSession(env, old(W()), token)
      decreases if token in issued then 0 else 1, Remaining(W(), token), 1
    {
      ghost var start := W();
      var found := GetSession(token);
      PermissionStays(start, W(), DelSession(token));
      if found.None? {
        CleanUp(token);
      } else {
        DeleteFound(token, found.value.user);
      }
    }

    method StoreSession(user: User) returns (token: Option<Token>)
      requires Valid()
      modifies this
      ensures Valid() && (W(), token) == Logic.StoreSession(env, old(W()), user)
    {
      ghost var after := Logic.StoreSession(env, W(), user).0;
      hide Sound, Evolves, IsFair, SessionStore.Pass, Execute, Drawn;
      Pass(env.wait(n));
      var session := Session(user, now + ttl);
      var k, ok := n, env.redisOk(n);
      Pass(env.gap(n));
      if !ok { return None; }
      var drawn := Drawn(env, W(), k);
      Do(SetSession(drawn, session));
      return Some(drawn);
    }

    method CreateSession(user: User) returns (reply: Reply)
      requires Valid()
      modifies this
      ensures Valid() && (W(), reply) == Logic.CreateSession(env, old(W()), user)
    {
      ghost var after := Logic.CreateSession(env, W(), user).0;
      hide Sound, Evolves;
      ghost var stored := Logic.StoreSession(env, W(), user);
      var token := StoreSession(user);
      if token.None? { return Denied; }
      RedisAfterGapKeepsSound(env, W(), AddMember(user, token.value));
      var ok := RedisAfterGap(AddMember(user, token.value));
      if !ok { return Denied; }
      var session := issued[token.value];
      var _ := RedisAfterGap(ExpireIndex(user));
      Audit(UpsertAudit(token.value, session));
      return Issued(token.value, session);
    }

    method SwapSession(token: Token, user: User) returns (reply: Reply)
      requires Valid()
      modifies this
      ensures Valid() && (W(), reply) == Logic.SwapSession(env, old(W()), token, user)
    {
      assert Valid() && Sound(Mark(W(), Revoke(token)));
      hide Sound, Evolves;
      Do(Revoke(token));
      DeleteSession(token);
      reply := CreateSession(user);
    }

    method FindUser(user: User) returns (found: bool)
      requires Valid()
      modifies this
      ensures Valid() && (W(), found) == Logic.FindUser(env, old(W()), user)
    {
      ghost var after := Logic.FindUser(env, W(), user).0;
      hide Sound, Evolves;
      found := env.lookupOk(n) && user in Users(env);
      Pass(env.wait(n));
    }

    method RefreshSession(token: Token) returns (reply: Reply)
      requires Valid()
      modifies this
      ensures Valid() && (W(), reply) == Logic.RefreshSession(env, old(W()), token)
    {
      hide Sound, Evolves;
      var session := GetSession(token);
      if session.None? { return Denied; }
      var found := FindUser(session.value.user);
      if !found { return Denied; }
      reply := SwapSession(token, session.value.user);
    }

    method ListTokens(user: User) returns (tokens: seq<Token>)
      requires Valid()
      modifies this
      ensures Valid() && (W(), tokens) == Logic.ListTokens(env, old(W()), user)
    {
      ghost var after := Logic.ListTokens(env, W(), user).0;
      hide Sound, Evolves;
      var k := n;
      Pass(env.wait(n));
      Do(RevokeUser(user));
      return if env.redisOk(k) then env.list(k, Members(W().store, user)) else [];
    }

    /** The loop over the listed tokens. */
    method DeleteListed(tokens: seq<Token>)
      requires Valid() && AllDeletable(W(), tokens)
      modifies this
      ensures Valid() && W() == Logic.DeleteListed(env, old(W()), tokens)
    {
      hide Sound, Evolves;
      for k := 0 to |tokens|
        invariant Valid() && AllDeletable(W(), tokens[k..])
        invariant Logic.DeleteListed(env, W(), tokens[k..]) == Logic.DeleteListed(env, old(W()), tokens)
      {
        ghost var before := W();
        assert tokens[k..][0] == tokens[k] && tokens[k..][1..] == tokens[k + 1..];
        CleanUp(tokens[k]);
        AllStayDeletable(before, W(), tokens[k..]);
      }
    }

    method DeleteUserSessions(user: User)
      requires Valid()
      modifies this
      ensures Valid() && W() == Logic.DeleteUserSessions(env, old(W()), user)
    {
      ghost var after := Logic.DeleteUserSessions(env, W(), user);
      hide Sound, Evolves;
      var tokens := ListTokens(user);
      DeleteListed(tokens);
      var _ := Redis(DelIndex(user));
      Audit(DeleteUserAudit(user));
    }
  }

  // ----- auth_service.go

  class Authentication {
    const service: Service

    constructor (service: Service)
      ensures this.service == service
    {
      this.service := service;
    }

    method Login(username: string, password: string) returns (reply: Reply)
      requires service.Valid()
      modifies service
      ensures service.Valid() && (service.W(), reply) == ServeLogin(service.env, old(service.W()), username, password)
    {
      ghost var after := ServeLogin(service.env, service.W(), username, password).0;
      hide Sound, Evolves;
      var env, k := service.env, service.n;
      if username == "" || password == "" { return Denied; }
      PassKeepsSound(env, service.W(), env.wait(k));
      service.Pass(env.wait(k));
      if !env.lookupOk(k) || username !in env.accounts
         || !env.matches(env.accounts[username].hash, password)
      {
        return Denied;
      }
      reply := service.CreateSession(env.accounts[username].user);
    }

    method Logout(token: Token) returns (reply: Reply)
      requires service.Valid()
      modifies service
      ensures service.Valid() && (service.W(), reply) == ServeLogout(service.env, old(service.W()), token)
    {
      if token == "" { return Denied; }
      assert Sound(Mark(service.W(), Revoke(token)));
      hide Sound, Evolves;
      service.Do(Revoke(token));
      service.DeleteSession(token);
      return LoggedOut;
    }

    method ValidateToken(token: Token) returns (reply: Reply)
      requires service.Valid()
      modifies service
      ensures service.Valid() && (service.W(), reply) == Logic.ValidateToken(service.env, old(service.W()), token)
    {
      hide Sound, Evolves;
      if token == "" { return Denied; }
      var session := service.GetSession(token);
      if session.None? { return Denied; }
      var found := service.FindUser(session.value.user);
      return if found then Valid(session.value.user) else Denied;
    }

    /** handleRefresh */
    method Refresh(token: Token) returns (reply: Reply)
      requires service.Valid()
      modifies service
      ensures service.Valid() && (service.W(), reply) == ServeRefresh(service.env, old(service.W()), token)
    {
      hide Sound, Evolves;
      reply := ValidateToken(token);
      if !reply.Valid? { return Denied; }
      reply := service.RefreshSession(token);
    }
  }
}
