/**
 The session and authentication services as functions of the world and the outside
 (tcp-auth-server/internal/service/session_service.go and auth_service.go). Each step first lets time pass and other
 requests run; results of commands that the source ignores are ignored here.
 */
module SessionLogic {
  import opened Options
  import opened SessionStore

  // ----- single commands

  /** A Redis command: without effect if it fails. */
  function Redis(env: Env, w: World, command: Command): (r: (World, bool))
    ensures r.0.n == w.n + 1
  {
    var w1 := Wait(env, w);
    if env.redisOk(w.n) then (Execute(w1, command), true) else (w1, false)
  }

  /** A statement on the audit table; every caller ignores its failure. */
  function Audit(env: Env, w: World, command: Command): (w': World)
    ensures w'.n == w.n + 1
  {
    var w1 := Wait(env, w);
    if env.auditOk(w.n) then Execute(w1, command) else w1
  }

  /** Does a permission to send the command survive any wait? */
  predicate StaysPermitted(w: World, command: Command) {
    Permitted(w, command) && !command.SetSession?
  }

  lemma PermissionStays(v: World, w: World, command: Command)
    requires Evolves(v, w) && StaysPermitted(v, command)
    ensures StaysPermitted(w, command)
  {}

  lemma RedisKeepsSound(env: Env, w: World, command: Command)
    requires Sound(w) && StaysPermitted(w, command)
    ensures var (w', ok) := Redis(env, w, command); Sound(w') && Evolves(w, w')
  {
    var w1 := Wait(env, w);
    PassKeepsSound(env, w, env.wait(w.n));
    PermissionStays(w, w1, command);
    if env.redisOk(w.n) {
      ExecuteKeepsSound(w1, command);
      EvolvesTransitively(w, w1, Execute(w1, command));
    }
  }

  lemma AuditKeepsSound(env: Env, w: World, command: Command)
    requires Sound(w) && StaysPermitted(w, command)
    ensures Sound(Audit(env, w, command)) && Evolves(w, Audit(env, w, command))
  {
    var w1 := Wait(env, w);
    PassKeepsSound(env, w, env.wait(w.n));
    PermissionStays(w, w1, command);
    if env.auditOk(w.n) {
      ExecuteKeepsSound(w1, command);
      EvolvesTransitively(w, w1, Execute(w1, command));
    }
  }

  // ----- GetSession and DeleteSession

  /** How long Redis will still hold the key. */
  function Remaining(w: World, token: Token): nat {
    if IsLive(w.store, token) then w.store.sessions[token].deadline - w.store.now else 0
  }

  /** DeleteSession when the session is not found: delete the key and the audit row anyway. */
  function CleanUp(env: Env, w: World, token: Token): (w': World)
    requires Sound(w) && Deletable(w, token)
    ensures Sound(w') && Evolves(w, w') && w'.n == w.n + 2
  {
    var w1 := Redis(env, w, DelSession(token)).0;
    RedisKeepsSound(env, w, DelSession(token));
    PermissionStays(w, w1, DeleteAudit(token));
    var w2 := Audit(env, w1, DeleteAudit(token));
    AuditKeepsSound(env, w1, DeleteAudit(token));
    EvolvesTransitively(w, w1, w2);
    w2
  }

  /** DeleteSession when the session is found: the key, the user's set, the audit row. */
  function DeleteFound(env: Env, w: World, token: Token, user: User): (w': World)
    requires Sound(w) && Deletable(w, token)
    ensures Sound(w') && Evolves(w, w') && w'.n == w.n + 3
  {
    var w1 := Redis(env, w, DelSession(token)).0;
    RedisKeepsSound(env, w, DelSession(token));
    PermissionStays(w, w1, RemoveMember(user, token));
    var w2 := Redis(env, w1, RemoveMember(user, token)).0;
    RedisKeepsSound(env, w1, RemoveMember(user, token));
    PermissionStays(w1, w2, DeleteAudit(token));
    var w3 := Audit(env, w2, DeleteAudit(token));
    AuditKeepsSound(env, w2, DeleteAudit(token));
    EvolvesTransitively(w, w1, w2);
    EvolvesTransitively(w, w2, w3);
    w3
  }

  /**
   GetSession and DeleteSession call each other on a session that has expired but is still in Redis. What ends the
   recursion is the Redis deadline: the round trip of GET takes time, and each call finds the deadline nearer.
   */
  function GetSession(env: Env, w: World, token: Token): (r: (World, Option<Session>))
    requires Sound(w)
    ensures Sound(r.0) && Evolves(w, r.0) && w.n < r.0.n
    decreases if token in w.issued then 0 else 1, Remaining(w, token), 0
  {
    var w1 := Pass(env, w, 1 + env.wait(w.n));
    PassKeepsSound(env, w, 1 + env.wait(w.n));
    if !env.redisOk(w.n) || !IsLive(w1.store, token) then (w1, None)
    else
      var session := w1.store.sessions[token].session;
      var w2 := Wait(env, w1);
      PassKeepsSound(env, w1, env.wait(w1.n));
      EvolvesTransitively(w, w1, w2);
      if w2.store.now > session.expiresAt then
        var w3 := DeleteSession(env, w2, token);
        EvolvesTransitively(w, w2, w3);
        (w3, None)
      else (w2, Some(session))
  }

  function DeleteSession(env: Env, w: World, token: Token): (w': World)
    requires Sound(w) && Deletable(w, token)
    ensures Sound(w') && Evolves(w, w') && w.n < w'.n
    decreases if token in w.issued then 0 else 1, Remaining(w, token), 1
  {
    var (w1, found) := GetSession(env, w, token);
    PermissionStays(w, w1, DelSession(token));
    var w2 := if found.None? then CleanUp(env, w1, token) else DeleteFound(env, w1, token, found.value.user);
    EvolvesTransitively(w, w1, w2);
    w2
  }

  /** Where GetSession calls DeleteSession, the deletion is permitted and the deadline is nearer. */
  lemma ExpiredMayBeDeleted(env: Env, w: World, token: Token)
    requires Sound(w)
    requires var w1 := Pass(env, w, 1 + env.wait(w.n));
             IsLive(w1.store, token) && Wait(env, w1).store.now > w1.store.sessions[token].session.expiresAt
    ensures var w2 := Wait(env, Pass(env, w, 1 + env.wait(w.n)));
            && Sound(w2) && Deletable(w2, token) && token in w2.issued
            && (token in w.issued ==> Remaining(w2, token) < Remaining(w, token))
  {
    PassKeepsSound(env, w, 1 + env.wait(w.n));
    var w1 := Pass(env, w, 1 + env.wait(w.n));
    PassKeepsSound(env, w1, env.wait(w1.n));
    EvolvesTransitively(w, w1, Wait(env, w1));
  }

  // ----- CreateSession, RefreshSession, DeleteUserSessions

  datatype Reply = Issued(token: Token, session: Session) | Valid(user: User) | LoggedOut | Denied

  /** The Redis commands of CreateSession wait for gap instead of wait. */
  function RedisAfterGap(env: Env, w: World, command: Command): (r: (World, bool))
    ensures r.0.n == w.n + 1
  {
    var w1 := Pass(env, w, env.gap(w.n));
    if env.redisOk(w.n) then (Execute(w1, command), true) else (w1, false)
  }

  lemma RedisAfterGapKeepsSound(env: Env, w: World, command: Command)
    requires Sound(w) && StaysPermitted(w, command)
    ensures var (w', ok) := RedisAfterGap(env, w, command); Sound(w') && Evolves(w, w')
  {
    var w1 := Pass(env, w, env.gap(w.n));
    PassKeepsSound(env, w, env.gap(w.n));
    PermissionStays(w, w1, command);
    if env.redisOk(w.n) {
      ExecuteKeepsSound(w1, command);
      EvolvesTransitively(w, w1, Execute(w1, command));
    }
  }

  /** The token drawn for a session that is stored in world w. */
  function Drawn(env: Env, w: World, n: nat): Token {
    env.draw(n, w.issued.Keys + w.revoked)
  }

  /** Draw a token, read the clock, and SET the session; the second component is None if Redis refuses. */
  function StoreSession(env: Env, w: World, user: User): (r: (World, Option<Token>))
    requires IsFair(env) && Sound(w)
    ensures Sound(r.0) && Evolves(w, r.0) && r.0.n == w.n + 2
    ensures r.1.Some? ==>
              r.1.value in r.0.issued && r.0.issued[r.1.value].user == user && r.1.value !in w.issued && r.1.value != ""
  {
    var w0 := Wait(env, w);
    PassKeepsSound(env, w, env.wait(w.n));
    var session := Session(user, w0.store.now + w0.ttl);
    var w1 := Pass(env, w0, env.gap(w0.n));
    PassKeepsSound(env, w0, env.gap(w0.n));
    EvolvesTransitively(w, w0, w1);
    if !env.redisOk(w0.n) then (w1, None)
    else
      var token := Drawn(env, w1, w0.n);
      var w2 := Execute(w1, SetSession(token, session));
      ExecuteKeepsSound(w1, SetSession(token, session));
      EvolvesTransitively(w, w1, w2);
      (w2, Some(token))
  }

  /** SADD, EXPIRE and the audit row of a session that was stored. */
  function RestOfCreation(env: Env, w: World, user: User, token: Token): (r: (World, Reply))
    requires Sound(w) && token in w.issued && w.issued[token].user == user
    ensures Sound(r.0) && Evolves(w, r.0) && w.n < r.0.n
    ensures r.1.Issued? ==> r.1.token == token && token in r.0.issued && r.0.issued[token] == r.1.session
    ensures r.1.Issued? ==> r.1.session.user == user && r.0.n == w.n + 3
    ensures r.1.Issued? || r.1.Denied?
  {
    var (w2, added) := RedisAfterGap(env, w, AddMember(user, token));
    RedisAfterGapKeepsSound(env, w, AddMember(user, token));
    if !added then (w2, Denied)
    else
      var session := w2.issued[token];
      var w3 := RedisAfterGap(env, w2, ExpireIndex(user)).0;
      RedisAfterGapKeepsSound(env, w2, ExpireIndex(user));
      var w4 := Audit(env, w3, UpsertAudit(token, session));
      AuditKeepsSound(env, w3, UpsertAudit(token, session));
      EvolvesTransitively(w, w2, w3);
      EvolvesTransitively(w, w3, w4);
      (w4, Issued(token, session))
  }

  function CreateSession(env: Env, w: World, user: User): (r: (World, Reply))
    requires IsFair(env) && Sound(w)
    ensures Sound(r.0) && Evolves(w, r.0) && w.n < r.0.n
    ensures r.1.Issued? ==> r.1.token in r.0.issued && r.0.issued[r.1.token] == r.1.session && r.1.session.user == user
    ensures r.1.Issued? ==> r.1.token !in w.issued && r.1.token != "" && r.0.n == w.n + 5
    ensures r.1.Issued? || r.1.Denied?
  {
    var (w1, token) := StoreSession(env, w, user);
    if token.None? then (w1, Denied)
    else
      var (w2, reply) := RestOfCreation(env, w1, user, token.value);
      EvolvesTransitively(w, w1, w2);
      (w2, reply)
  }

  /** A request to revoke is on record from the moment it arrives. */
  function Mark(w: World, command: Command): (w': World)
    requires Sound(w) && (command.Revoke? || command.RevokeUser?)
    ensures Sound(w') && Evolves(w, w') && w'.n == w.n
  {
    ExecuteKeepsSound(w, command);
    Execute(w, command)
  }

  /** userRepo.GetUserByID */
  function FindUser(env: Env, w: World, user: User): (r: (World, bool))
    requires Sound(w)
    ensures Sound(r.0) && Evolves(w, r.0) && r.0.n == w.n + 1
  {
    PassKeepsSound(env, w, env.wait(w.n));
    (Wait(env, w), env.lookupOk(w.n) && user in Users(env))
  }

  /** The second half of RefreshSession: delete the old session, create a new one. */
  function SwapSession(env: Env, w: World, token: Token, user: User): (r: (World, Reply))
    requires IsFair(env) && Sound(w)
    ensures Sound(r.0) && Evolves(w, r.0) && w.n < r.0.n
    ensures r.1.Issued? || r.1.Denied?
    ensures r.1.Issued? ==> r.1.token in r.0.issued && r.0.issued[r.1.token] == r.1.session && r.1.token != ""
  {
    var marked := Mark(w, Revoke(token));
    var w1 := DeleteSession(env, marked, token);
    var (w2, reply) := CreateSession(env, w1, user);
    EvolvesTransitively(w, marked, w1);
    EvolvesTransitively(w, w1, w2);
    (w2, reply)
  }

  function RefreshSession(env: Env, w: World, token: Token): (r: (World, Reply))
    requires IsFair(env) && Sound(w)
    ensures Sound(r.0) && Evolves(w, r.0) && w.n < r.0.n
    ensures r.1.Issued? || r.1.Denied?
    ensures r.1.Issued? ==> r.1.token in r.0.issued && r.0.issued[r.1.token] == r.1.session && r.1.token != ""
  {
    var (w1, session) := GetSession(env, w, token);
    if session.None? then (w1, Denied)
    else
      var (w2, found) := FindUser(env, w1, session.value.user);
      EvolvesTransitively(w, w1, w2);
      if !found then (w2, Denied)
      else
        var (w3, reply) := SwapSession(env, w2, token, session.value.user);
        EvolvesTransitively(w, w2, w3);
        (w3, reply)
  }

  predicate AllDeletable(w: World, tokens: seq<Token>) {
    forall token :: token in tokens ==> Deletable(w, token)
  }

  lemma AllStayDeletable(v: World, w: World, tokens: seq<Token>)
    requires Evolves(v, w) && AllDeletable(v, tokens)
    ensures AllDeletable(w, tokens)
  {
    forall token | token in tokens ensures Deletable(w, token) {
      PermissionStays(v, w, DelSession(token));
    }
  }

  /** The loop of DeleteUserSessions: each listed token's key and audit row. */
  function DeleteListed(env: Env, w: World, tokens: seq<Token>): (w': World)
    requires Sound(w) && AllDeletable(w, tokens)
    ensures Sound(w') && Evolves(w, w') && w'.n == w.n + 2 * |tokens|
    decreases |tokens|
  {
    if tokens == [] then w
    else
      var w1 := CleanUp(env, w, tokens[0]);
      AllStayDeletable(w, w1, tokens);
      var w2 := DeleteListed(env, w1, tokens[1..]);
      EvolvesTransitively(w, w1, w2);
      w2
  }

  /** SMEMBERS; an error counts as an empty set. Whatever is listed from here on is to be revoked. */
  function ListTokens(env: Env, w: World, user: User): (r: (World, seq<Token>))
    requires IsFair(env) && Sound(w)
    ensures Sound(r.0) && Evolves(w, r.0) && r.0.n == w.n + 1
    ensures AllDeletable(r.0, r.1)
  {
    var w1 := Wait(env, w);
    PassKeepsSound(env, w, env.wait(w.n));
    var marked := Mark(w1, RevokeUser(user));
    EvolvesTransitively(w, w1, marked);
    (marked, if env.redisOk(w.n) then env.list(w.n, Members(marked.store, user)) else [])
  }

  function DeleteUserSessions(env: Env, w: World, user: User): (w': World)
    requires IsFair(env) && Sound(w)
    ensures Sound(w') && Evolves(w, w') && w.n < w'.n
  {
    var (w1, tokens) := ListTokens(env, w, user);
    var w2 := DeleteListed(env, w1, tokens);
    var w3 := Redis(env, w2, DelIndex(user)).0;
    RedisKeepsSound(env, w2, DelIndex(user));
    var w4 := Audit(env, w3, DeleteUserAudit(user));
    AuditKeepsSound(env, w3, DeleteUserAudit(user));
    EvolvesTransitively(w, w1, w2);
    EvolvesTransitively(w, w2, w3);
    EvolvesTransitively(w, w3, w4);
    w4
  }

  // ----- the authentication service

  datatype Request =
    | Login(username: string, password: string)
    | Validate(token: Token)
    | Logout(token: Token)
    | Refresh(token: Token)
    | LogoutEverywhere(user: User)

  function ServeLogin(env: Env, w: World, username: string, password: string): (r: (World, Reply))
    requires IsFair(env) && Sound(w)
    ensures Sound(r.0) && Evolves(w, r.0) && w.n <= r.0.n
    ensures r.1.Issued? || r.1.Denied?
    ensures r.1.Issued? ==> r.1.token in r.0.issued && r.0.issued[r.1.token] == r.1.session && r.1.token != ""
  {
    if username == "" || password == "" then EvolvesTransitively(w, w, w); (w, Denied)
    else
      var w1 := Wait(env, w);
      PassKeepsSound(env, w, env.wait(w.n));
      if !env.lookupOk(w.n) || username !in env.accounts || !env.matches(env.accounts[username].hash, password)
      then (w1, Denied)
      else
        var (w2, reply) := CreateSession(env, w1, env.accounts[username].user);
        EvolvesTransitively(w, w1, w2);
        (w2, reply)
  }

  function ValidateToken(env: Env, w: World, token: Token): (r: (World, Reply))
    requires Sound(w)
    ensures Sound(r.0) && Evolves(w, r.0) && w.n <= r.0.n
    ensures r.1.Valid? || r.1.Denied?
  {
    if token == "" then (w, Denied)
    else
      var (w1, session) := GetSession(env, w, token);
      if session.None? then (w1, Denied)
      else
        var (w2, found) := FindUser(env, w1, session.value.user);
        EvolvesTransitively(w, w1, w2);
        (w2, if found then Valid(session.value.user) else Denied)
  }

  function ServeLogout(env: Env, w: World, token: Token): (r: (World, Reply))
    requires Sound(w)
    ensures Sound(r.0) && Evolves(w, r.0) && w.n <= r.0.n
  {
    if token == "" then (w, Denied)
    else
      var marked := Mark(w, Revoke(token));
      var w1 := DeleteSession(env, marked, token);
      EvolvesTransitively(w, marked, w1);
      (w1, LoggedOut)
  }

  /** handleRefresh: the token is validated once before it is refreshed. */
  function ServeRefresh(env: Env, w: World, token: Token): (r: (World, Reply))
    requires IsFair(env) && Sound(w)
    ensures Sound(r.0) && Evolves(w, r.0) && w.n <= r.0.n
    ensures r.1.Issued? || r.1.Denied?
    ensures r.1.Issued? ==> r.1.token in r.0.issued && r.0.issued[r.1.token] == r.1.session && r.1.token != ""
  {
    var (w1, reply) := ValidateToken(env, w, token);
    if !reply.Valid? then (w1, Denied)
    else
      var (w2, refreshed) := RefreshSession(env, w1, token);
      EvolvesTransitively(w, w1, w2);
      (w2, refreshed)
  }

  function Serve(env: Env, w: World, request: Request): (r: (World, Reply))
    requires IsFair(env) && Sound(w)
    ensures Sound(r.0) && Evolves(w, r.0) && w.n <= r.0.n
    ensures r.1.Issued? ==> r.1.token in r.0.issued && r.0.issued[r.1.token] == r.1.session && r.1.token != ""
  {
    match request
    case Login(username, password) => ServeLogin(env, w, username, password)
    case Validate(token) => ValidateToken(env, w, token)
    case Logout(token) => ServeLogout(env, w, token)
    case Refresh(token) => ServeRefresh(env, w, token)
    case LogoutEverywhere(user) => (DeleteUserSessions(env, w, user), LoggedOut)
  }

  /** A run of the service: one request after another, with other requests' commands in every wait. */
  function Run(env: Env, w: World, requests: seq<Request>): (w': World)
    requires IsFair(env) && Sound(w)
    ensures Sound(w') && Evolves(w, w') && w.n <= w'.n
  {
    if requests == [] then w
    else
      var before := Run(env, w, requests[..|requests| - 1]);
      var after := Serve(env, before, requests[|requests| - 1]).0;
      EvolvesTransitively(w, before, after);
      after
  }
}
