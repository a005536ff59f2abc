/**
 What other requests may do in a wait (SessionStore.Permitted and IsOrderly) is what the requests of this service do:
 each request is a chain of waits and commands, every command of it is permitted where it is sent, and every command of
 a careful request is orderly, its creations running in one instant. (session_service.go:48-189)
 */
module SessionGuarantee {
  import opened SessionStore
  import opened SessionLogic
  import opened SessionProperties
  import opened SessionExact
  import opened SessionIndex
  import opened SessionBulk

  /** A command that takes effect, and the world that it finds. */
  datatype Sent = Sent(before: World, command: Command)

  // ----- what each request sends

  function SentIf(ok: bool, before: World, command: Command): seq<Sent> {
    if ok then [Sent(before, command)] else []
  }

  function RedisSends(env: Env, w: World, command: Command): seq<Sent> {
    SentIf(env.redisOk(w.n), Wait(env, w), command)
  }

  function AfterGapSends(env: Env, w: World, command: Command): seq<Sent> {
    SentIf(env.redisOk(w.n), Pass(env, w, env.gap(w.n)), command)
  }

  function AuditSends(env: Env, w: World, command: Command): seq<Sent> {
    SentIf(env.auditOk(w.n), Wait(env, w), command)
  }

  function CleanUpSends(env: Env, w: World, token: Token): seq<Sent> {
    RedisSends(env, w, DelSession(token)) + AuditSends(env, Redis(env, w, DelSession(token)).0, DeleteAudit(token))
  }

  function FoundSends(env: Env, w: World, token: Token, user: User): seq<Sent> {
    var w1 := Redis(env, w, DelSession(token)).0;
    var w2 := Redis(env, w1, RemoveMember(user, token)).0;
    RedisSends(env, w, DelSession(token)) + RedisSends(env, w1, RemoveMember(user, token))
    + AuditSends(env, w2, DeleteAudit(token))
  }

  function GetSends(env: Env, w: World, token: Token): seq<Sent>
    requires Sound(w)
    decreases if token in w.issued then 0 else 1, Remaining(w, token), 0
  {
    var w1 := Pass(env, w, 1 + env.wait(w.n));
    if !env.redisOk(w.n) || !IsLive(w1.store, token) then []
    else
      var w2 := Wait(env, w1);
      if w2.store.now > w1.store.sessions[token].session.expiresAt then
        ExpiredMayBeDeleted(env, w, token);
        DeleteSends(env, w2, token)
      else []
  }

  function DeleteSends(env: Env, w: World, token: Token): seq<Sent>
    requires Sound(w) && Deletable(w, token)
    decreases if token in w.issued then 0 else 1, Remaining(w, token), 1
  {
    var (w1, found) := GetSession(env, w, token);
    GetSends(env, w, token)
    + if found.None? then CleanUpSends(env, w1, token) else FoundSends(env, w1, token, found.value.user)
  }

  function StoreSends(env: Env, w: World, user: User): seq<Sent> {
    var w0 := Wait(env, w);
    var w1 := Pass(env, w0, env.gap(w0.n));
    SentIf(env.redisOk(w0.n), w1, SetSession(Drawn(env, w1, w0.n), Session(user, w0.store.now + w0.ttl)))
  }

  function RestSends(env: Env, w: World, user: User, token: Token): seq<Sent> {
    var (w2, added) := RedisAfterGap(env, w, AddMember(user, token));
    AfterGapSends(env, w, AddMember(user, token))
    + if !added || token !in w2.issued then []
      else
        var w3 := RedisAfterGap(env, w2, ExpireIndex(user)).0;
        AfterGapSends(env, w2, ExpireIndex(user)) + AuditSends(env, w3, UpsertAudit(token, w2.issued[token]))
  }

  function CreateSends(env: Env, w: World, user: User): seq<Sent>
    requires IsFair(env) && Sound(w)
  {
    var (w1, token) := StoreSession(env, w, user);
    StoreSends(env, w, user) + if token.None? then [] else RestSends(env, w1, user, token.value)
  }

  function SwapSends(env: Env, w: World, token: Token, user: User): seq<Sent>
    requires IsFair(env) && Sound(w)
  {
    var marked := Mark(w, Revoke(token));
    [Sent(w, Revoke(token))] + DeleteSends(env, marked, token)
    + CreateSends(env, DeleteSession(env, marked, token), user)
  }

  function RefreshSends(env: Env, w: World, token: Token): seq<Sent>
    requires IsFair(env) && Sound(w)
  {
    var (w1, session) := GetSession(env, w, token);
    GetSends(env, w, token)
    + if session.None? then []
      else
        var (w2, found) := FindUser(env, w1, session.value.user);
        if found then SwapSends(env, w2, token, session.value.user) else []
  }

  function ListedSends(env: Env, w: World, tokens: seq<Token>): seq<Sent>
    requires Sound(w) && AllDeletable(w, tokens)
    decreases |tokens|
  {
    if tokens == [] then []
    else
      var w1 := CleanUp(env, w, tokens[0]);
      AllStayDeletable(w, w1, tokens);
      CleanUpSends(env, w, tokens[0]) + ListedSends(env, w1, tokens[1..])
  }

  function BulkSends(env: Env, w: World, user: User): seq<Sent>
    requires IsFair(env) && Sound(w)
  {
    var (w1, tokens) := ListTokens(env, w, user);
    var w2 := DeleteListed(env, w1, tokens);
    [Sent(Wait(env, w), RevokeUser(user))] + ListedSends(env, w1, tokens)
    + RedisSends(env, w2, DelIndex(user)) + AuditSends(env, Redis(env, w2, DelIndex(user)).0, DeleteUserAudit(user))
  }

  function LoginSends(env: Env, w: World, username: string, password: string): seq<Sent>
    requires IsFair(env) && Sound(w)
  {
    PassKeepsSound(env, w, env.wait(w.n));
    if username == "" || password == "" || !env.lookupOk(w.n) || username !in env.accounts
       || !env.matches(env.accounts[username].hash, password) then []
    else CreateSends(env, Wait(env, w), env.accounts[username].user)
  }

  function ServeSends(env: Env, w: World, request: Request): seq<Sent>
    requires IsFair(env) && Sound(w)
  {
    match request
    case Login(username, password) => LoginSends(env, w, username, password)
    case Validate(token) => if token == "" then [] else GetSends(env, w, token)
    case Logout(token) =>
      if token == "" then [] else [Sent(w, Revoke(token))] + DeleteSends(env, Mark(w, Revoke(token)), token)
    case Refresh(token) =>
      var (w1, reply) := ValidateToken(env, w, token);
      (if token == "" then [] else GetSends(env, w, token)) + if reply.Valid? then RefreshSends(env, w1, token) else []
    case LogoutEverywhere(user) => BulkSends(env, w, user)
  }

  // ----- a request does nothing but wait and send permitted commands

  function Waits(env: Env, w: World, times: seq<nat>): World {
    if times == [] then w else Pass(env, Waits(env, w, times[..|times| - 1]), times[|times| - 1])
  }

  /** From v to w only waits have come. */
  ghost predicate Waited(env: Env, v: World, w: World) {
    exists times :: Waits(env, v, times) == w
  }

  /** From v to w only waits have come, and these commands, each permitted where it was sent. */
  ghost predicate Ran(env: Env, v: World, sends: seq<Sent>, w: World) {
    if sends == [] then Waited(env, v, w)
    else
      var last := sends[|sends| - 1];
      && Ran(env, v, sends[..|sends| - 1], last.before)
      && Permitted(last.before, last.command) && Waited(env, Execute(last.before, last.command), w)
  }

  lemma WaitedNot(env: Env, w: World)
    ensures Waited(env, w, w)
  {
    assert Waits(env, w, []) == w;
  }

  lemma WaitedOnce(env: Env, w: World, time: nat)
    ensures Waited(env, w, Pass(env, w, time))
  {
    hide Pass;
    assert [time][..0] == [];
    assert Waits(env, w, [time]) == Pass(env, w, time);
  }

  lemma {:induction false} WaitsInTurn(env: Env, w: World, times: seq<nat>, more: seq<nat>)
    ensures Waits(env, w, times + more) == Waits(env, Waits(env, w, times), more)
  {
    if more == [] {
      assert times + more == times;
    } else {
      WaitsInTurn(env, w, times, more[..|more| - 1]);
      assert (times + more)[..|times + more| - 1] == times + more[..|more| - 1];
    }
  }

  lemma WaitedTransitively(env: Env, u: World, v: World, w: World)
    requires Waited(env, u, v) && Waited(env, v, w)
    ensures Waited(env, u, w)
  {
    var times, more :| Waits(env, u, times) == v && Waits(env, v, more) == w;
    WaitsInTurn(env, u, times, more);
  }

  lemma RanThenWaited(env: Env, u: World, sends: seq<Sent>, v: World, w: World)
    requires Ran(env, u, sends, v) && Waited(env, v, w)
    ensures Ran(env, u, sends, w)
  {
    hide Waited;
    if sends == [] {
      WaitedTransitively(env, u, v, w);
    } else {
      var last := sends[|sends| - 1];
      WaitedTransitively(env, Execute(last.before, last.command), v, w);
    }
  }

  lemma {:induction false} RanInTurn(env: Env, u: World, sends: seq<Sent>, v: World, more: seq<Sent>, w: World)
    requires Ran(env, u, sends, v) && Ran(env, v, more, w)
    ensures Ran(env, u, sends + more, w)
    decreases |more|
  {
    hide Waited;
    if more == [] {
      assert sends + more == sends;
      RanThenWaited(env, u, sends, v, w);
    } else {
      var last := more[|more| - 1];
      RanInTurn(env, u, sends, v, more[..|more| - 1], last.before);
      assert (sends + more)[..|sends + more| - 1] == sends + more[..|more| - 1];
    }
  }

  lemma SentRuns(env: Env, w: World, ok: bool, before: World, command: Command)
    requires Waited(env, w, before) && (ok ==> Permitted(before, command))
    ensures Ran(env, w, SentIf(ok, before, command), if ok then Execute(before, command) else before)
  {
    hide Waited;
    if ok {
      assert [Sent(before, command)][..0] == [];
      WaitedNot(env, Execute(before, command));
    }
  }

  lemma CommandRuns(env: Env, w: World, command: Command)
    requires Sound(w) && StaysPermitted(w, command)
    ensures Ran(env, w, RedisSends(env, w, command), Redis(env, w, command).0)
    ensures Ran(env, w, AuditSends(env, w, command), Audit(env, w, command))
  {
    PassKeepsSound(env, w, env.wait(w.n));
    PermissionStays(w, Wait(env, w), command);
    hide Sound, Evolves, Pass, Ran, Waited, SentIf, Execute;
    WaitedOnce(env, w, env.wait(w.n));
    SentRuns(env, w, env.redisOk(w.n), Wait(env, w), command);
    SentRuns(env, w, env.auditOk(w.n), Wait(env, w), command);
  }

  lemma AfterGapRuns(env: Env, w: World, command: Command)
    requires Sound(w) && StaysPermitted(w, command)
    ensures Ran(env, w, AfterGapSends(env, w, command), RedisAfterGap(env, w, command).0)
  {
    PassKeepsSound(env, w, env.gap(w.n));
    PermissionStays(w, Pass(env, w, env.gap(w.n)), command);
    hide Sound, Evolves, Pass, Ran, Waited, SentIf, Execute;
    WaitedOnce(env, w, env.gap(w.n));
    SentRuns(env, w, env.redisOk(w.n), Pass(env, w, env.gap(w.n)), command);
  }

  lemma CleanUpRuns(env: Env, w: World, token: Token)
    requires Sound(w) && Deletable(w, token)
    ensures Ran(env, w, CleanUpSends(env, w, token), CleanUp(env, w, token))
  {
    var w1 := Redis(env, w, DelSession(token)).0;
    RedisKeepsSound(env, w, DelSession(token));
    PermissionStays(w, w1, DeleteAudit(token));
    hide Sound, Evolves, Redis, Audit, RedisSends, AuditSends, Ran;
    CommandRuns(env, w, DelSession(token));
    CommandRuns(env, w1, DeleteAudit(token));
    RanInTurn(env, w, RedisSends(env, w, DelSession(token)), w1,
              AuditSends(env, w1, DeleteAudit(token)), CleanUp(env, w, token));
  }

  lemma DeleteFoundRuns(env: Env, w: World, token: Token, user: User)
    requires Sound(w) && Deletable(w, token)
    ensures Ran(env, w, FoundSends(env, w, token, user), DeleteFound(env, w, token, user))
  {
    var w1 := Redis(env, w, DelSession(token)).0;
    RedisKeepsSound(env, w, DelSession(token));
    PermissionStays(w, w1, RemoveMember(user, token));
    var w2 := Redis(env, w1, RemoveMember(user, token)).0;
    RedisKeepsSound(env, w1, RemoveMember(user, token));
    PermissionStays(w1, w2, DeleteAudit(token));
    hide Sound, Evolves, Redis, Audit, RedisSends, AuditSends, Ran;
    CommandRuns(env, w, DelSession(token));
    CommandRuns(env, w1, RemoveMember(user, token));
    CommandRuns(env, w2, DeleteAudit(token));
    var first, second := RedisSends(env, w, DelSession(token)), RedisSends(env, w1, RemoveMember(user, token));
    RanInTurn(env, w, first, w1, second, w2);
    RanInTurn(env, w, first + second, w2, AuditSends(env, w2, DeleteAudit(token)), DeleteFound(env, w, token, user));
  }

  lemma OnlyWaited(env: Env, v: World, w: World)
    requires Waited(env, v, w)
    ensures Ran(env, v, [], w)
  {}

  lemma {:induction false} GetSessionRuns(env: Env, w: World, token: Token)
    requires Sound(w)
    ensures Ran(env, w, GetSends(env, w, token), GetSession(env, w, token).0)
    decreases if token in w.issued then 0 else 1, Remaining(w, token), 0
  {
    hide Sound, Evolves, Pass, Ran, Waited;
    var w1 := Pass(env, w, 1 + env.wait(w.n));
    WaitedOnce(env, w, 1 + env.wait(w.n));
    OnlyWaited(env, w, w1);
    if env.redisOk(w.n) && IsLive(w1.store, token) {
      var w2 := Wait(env, w1);
      WaitedOnce(env, w1, env.wait(w1.n));
      RanThenWaited(env, w, [], w1, w2);
      if w2.store.now > w1.store.sessions[token].session.expiresAt {
        ExpiredMayBeDeleted(env, w, token);
        DeleteSessionRuns(env, w2, token);
        RanInTurn(env, w, [], w2, DeleteSends(env, w2, token), DeleteSession(env, w2, token));
        assert [] + DeleteSends(env, w2, token) == DeleteSends(env, w2, token);
      }
    }
  }

  lemma {:induction false} DeleteSessionRuns(env: Env, w: World, token: Token)
    requires Sound(w) && Deletable(w, token)
    ensures Ran(env, w, DeleteSends(env, w, token), DeleteSession(env, w, token))
    decreases if token in w.issued then 0 else 1, Remaining(w, token), 1
  {
    GetSessionRuns(env, w, token);
    var (w1, found) := GetSession(env, w, token);
    PermissionStays(w, w1, DelSession(token));
    hide Sound, Evolves, Ran;
    if found.None? {
      CleanUpRuns(env, w1, token);
      RanInTurn(env, w, GetSends(env, w, token), w1, CleanUpSends(env, w1, token), CleanUp(env, w1, token));
    } else {
      var user := found.value.user;
      DeleteFoundRuns(env, w1, token, user);
      RanInTurn(env, w, GetSends(env, w, token), w1, FoundSends(env, w1, token, user),
                DeleteFound(env, w1, token, user));
    }
  }

  lemma NewSessionIsPermitted(env: Env, w: World, n: nat, user: User, expiresAt: int)
    requires IsFair(env) && expiresAt <= w.store.now + w.ttl
    ensures Permitted(w, SetSession(Drawn(env, w, n), Session(user, expiresAt)))
  {}

  lemma StoreSessionRuns(env: Env, w: World, user: User)
    requires IsFair(env) && Sound(w)
    ensures Ran(env, w, StoreSends(env, w, user), StoreSession(env, w, user).0)
  {
    hide IsFair, Pass, Ran, Waited, Execute, Permitted, Drawn, KeysOnlyGo;
    var w0 := Wait(env, w);
    PassKeepsSound(env, w, env.wait(w.n));
    var w1 := Pass(env, w0, env.gap(w0.n));
    PassKeepsSound(env, w0, env.gap(w0.n));
    NewSessionIsPermitted(env, w1, w0.n, user, w0.store.now + w0.ttl);
    hide Sound, Evolves;
    WaitedOnce(env, w, env.wait(w.n));
    WaitedOnce(env, w0, env.gap(w0.n));
    WaitedTransitively(env, w, w0, w1);
    SentRuns(env, w, env.redisOk(w0.n), w1, SetSession(Drawn(env, w1, w0.n), Session(user, w0.store.now + w0.ttl)));
  }

  lemma RestRuns(env: Env, w: World, user: User, token: Token, w': World)
    requires Sound(w) && token in w.issued && w.issued[token].user == user
    requires var (w2, added) := RedisAfterGap(env, w, AddMember(user, token));
             && token in w2.issued
             && w' == if added
                      then Audit(env, RedisAfterGap(env, w2, ExpireIndex(user)).0, UpsertAudit(token, w2.issued[token]))
                      else w2
    ensures Ran(env, w, RestSends(env, w, user, token), w')
  {
    var (w2, added) := RedisAfterGap(env, w, AddMember(user, token));
    RedisAfterGapKeepsSound(env, w, AddMember(user, token));
    var w3 := RedisAfterGap(env, w2, ExpireIndex(user)).0;
    RedisAfterGapKeepsSound(env, w2, ExpireIndex(user));
    var upsert := UpsertAudit(token, w2.issued[token]);
    assert StaysPermitted(w3, upsert);
    hide Sound, Evolves, RedisAfterGap, Audit, AfterGapSends, AuditSends, Ran;
    var first := AfterGapSends(env, w, AddMember(user, token));
    AfterGapRuns(env, w, AddMember(user, token));
    if added {
      var second, third := AfterGapSends(env, w2, ExpireIndex(user)), AuditSends(env, w3, upsert);
      AfterGapRuns(env, w2, ExpireIndex(user));
      CommandRuns(env, w3, upsert);
      RanInTurn(env, w2, second, w3, third, w');
      RanInTurn(env, w, first, w2, second + third, w');
    } else {
      assert first + [] == first;
    }
  }

  lemma CreateSessionRuns(env: Env, w: World, user: User)
    requires IsFair(env) && Sound(w)
    ensures Ran(env, w, CreateSends(env, w, user), CreateSession(env, w, user).0)
  {
    hide IsFair, StoreSends, RestSends, Ran;
    var (w1, stored) := StoreSession(env, w, user);
    StoreSessionRuns(env, w, user);
    if stored.Some? {
      var w' := CreateSession(env, w, user).0;
      RedisAfterGapKeepsSound(env, w1, AddMember(user, stored.value));
      assert stored.value in RedisAfterGap(env, w1, AddMember(user, stored.value)).0.issued;
      hide Evolves;
      hide StoreSession;
      RestRuns(env, w1, user, stored.value, w');
      RanInTurn(env, w, StoreSends(env, w, user), w1, RestSends(env, w1, user, stored.value), w');
    } else {
      assert StoreSends(env, w, user) + [] == StoreSends(env, w, user);
    }
  }

  lemma MarkRuns(env: Env, w: World, command: Command)
    requires Sound(w) && (command.Revoke? || command.RevokeUser?)
    ensures Ran(env, w, [Sent(w, command)], Mark(w, command))
  {
    hide Sound, Waited;
    WaitedNot(env, w);
    WaitedNot(env, Mark(w, command));
    assert [Sent(w, command)][..0] == [];
  }

  lemma SwapSessionRuns(env: Env, w: World, token: Token, user: User)
    requires IsFair(env) && Sound(w)
    ensures Ran(env, w, SwapSends(env, w, token, user), SwapSession(env, w, token, user).0)
  {
    hide Sound, Evolves, IsFair, DeleteSends, CreateSends, DeleteSession, CreateSession, Ran;
    var marked := Mark(w, Revoke(token));
    var w1 := DeleteSession(env, marked, token);
    MarkRuns(env, w, Revoke(token));
    DeleteSessionRuns(env, marked, token);
    CreateSessionRuns(env, w1, user);
    var first, second := [Sent(w, Revoke(token))], DeleteSends(env, marked, token);
    RanInTurn(env, w, first, marked, second, w1);
    RanInTurn(env, w, first + second, w1, CreateSends(env, w1, user), CreateSession(env, w1, user).0);
  }

  lemma RefreshSessionRuns(env: Env, w: World, token: Token)
    requires IsFair(env) && Sound(w)
    ensures Ran(env, w, RefreshSends(env, w, token), RefreshSession(env, w, token).0)
  {
    hide Sound, Evolves, IsFair, GetSends, GetSession, SwapSends, SwapSession, Ran, Waited, Pass;
    var (w1, session) := GetSession(env, w, token);
    GetSessionRuns(env, w, token);
    var first := GetSends(env, w, token);
    assert first + [] == first;
    if session.Some? {
      var (w2, found) := FindUser(env, w1, session.value.user);
      WaitedOnce(env, w1, env.wait(w1.n));
      RanThenWaited(env, w, first, w1, w2);
      if found {
        SwapSessionRuns(env, w2, token, session.value.user);
        RanInTurn(env, w, first, w2, SwapSends(env, w2, token, session.value.user),
                  SwapSession(env, w2, token, session.value.user).0);
      }
    }
  }

  lemma {:induction false} DeleteListedRuns(env: Env, w: World, tokens: seq<Token>)
    requires Sound(w) && AllDeletable(w, tokens)
    ensures Ran(env, w, ListedSends(env, w, tokens), DeleteListed(env, w, tokens))
    decreases |tokens|
  {
    if tokens == [] {
      WaitedNot(env, w);
    } else {
      var w1 := CleanUp(env, w, tokens[0]);
      AllStayDeletable(w, w1, tokens);
      hide Sound, Evolves, CleanUp, CleanUpSends, Ran;
      CleanUpRuns(env, w, tokens[0]);
      DeleteListedRuns(env, w1, tokens[1..]);
      RanInTurn(env, w, CleanUpSends(env, w, tokens[0]), w1,
                ListedSends(env, w1, tokens[1..]), DeleteListed(env, w1, tokens[1..]));
    }
  }

  lemma ListTokensRuns(env: Env, w: World, user: User)
    requires IsFair(env) && Sound(w)
    ensures Ran(env, w, [Sent(Wait(env, w), RevokeUser(user))], ListTokens(env, w, user).0)
  {
    PassKeepsSound(env, w, env.wait(w.n));
    hide Sound, Evolves, IsFair, Pass, Waited;
    WaitedOnce(env, w, env.wait(w.n));
    WaitedNot(env, Execute(Wait(env, w), RevokeUser(user)));
    assert [Sent(Wait(env, w), RevokeUser(user))][..0] == [];
  }

  lemma DeleteUserSessionsRuns(env: Env, w: World, user: User)
    requires IsFair(env) && Sound(w)
    ensures Ran(env, w, BulkSends(env, w, user), DeleteUserSessions(env, w, user))
  {
    var (w1, tokens) := ListTokens(env, w, user);
    var w2 := DeleteListed(env, w1, tokens);
    var w3 := Redis(env, w2, DelIndex(user)).0;
    RedisKeepsSound(env, w2, DelIndex(user));
    hide Sound, Evolves, IsFair, ListTokens, ListedSends, DeleteListed, Redis, RedisSends, Audit, AuditSends, Ran;
    ListTokensRuns(env, w, user);
    DeleteListedRuns(env, w1, tokens);
    CommandRuns(env, w2, DelIndex(user));
    CommandRuns(env, w3, DeleteUserAudit(user));
    var first, second := [Sent(Wait(env, w), RevokeUser(user))], ListedSends(env, w1, tokens);
    var third, fourth := RedisSends(env, w2, DelIndex(user)), AuditSends(env, w3, DeleteUserAudit(user));
    RanInTurn(env, w, first, w1, second, w2);
    RanInTurn(env, w, first + second, w2, third, w3);
    RanInTurn(env, w, first + second + third, w3, fourth, DeleteUserSessions(env, w, user));
  }

  lemma LoginRuns(env: Env, w: World, username: string, password: string)
    requires IsFair(env) && Sound(w)
    ensures Ran(env, w, LoginSends(env, w, username, password), ServeLogin(env, w, username, password).0)
  {
    PassKeepsSound(env, w, env.wait(w.n));
    hide Sound, Evolves, IsFair, CreateSends, CreateSession, Ran, Waited, Pass;
    if username == "" || password == "" {
      WaitedNot(env, w);
      OnlyWaited(env, w, w);
    } else {
      var w1 := Wait(env, w);
      WaitedOnce(env, w, env.wait(w.n));
      OnlyWaited(env, w, w1);
      if env.lookupOk(w.n) && username in env.accounts && env.matches(env.accounts[username].hash, password) {
        var user := env.accounts[username].user;
        CreateSessionRuns(env, w1, user);
        RanInTurn(env, w, [], w1, CreateSends(env, w1, user), CreateSession(env, w1, user).0);
        assert [] + CreateSends(env, w1, user) == CreateSends(env, w1, user);
      }
    }
  }

  lemma ValidationRuns(env: Env, w: World, token: Token)
    requires Sound(w)
    ensures Ran(env, w, if token == "" then [] else GetSends(env, w, token), ValidateToken(env, w, token).0)
  {
    hide Sound, Evolves, GetSends, GetSession, Ran, Waited, Pass;
    if token == "" {
      WaitedNot(env, w);
      OnlyWaited(env, w, w);
    } else {
      var w1 := GetSession(env, w, token).0;
      GetSessionRuns(env, w, token);
      WaitedOnce(env, w1, env.wait(w1.n));
      RanThenWaited(env, w, GetSends(env, w, token), w1, Wait(env, w1));
    }
  }

  /** A request only waits and sends the commands listed, and each of them is permitted. */
  lemma RequestsSendPermitted(env: Env, w: World, request: Request)
    requires IsFair(env) && Sound(w)
    ensures Ran(env, w, ServeSends(env, w, request), Serve(env, w, request).0)
  {
    hide Sound, Evolves, IsFair, GetSends, DeleteSends, RefreshSends, BulkSends, LoginSends,
      ServeLogin, ValidateToken, DeleteSession, RefreshSession, DeleteUserSessions, Ran, Waited;
    match request
    case Login(username, password) => LoginRuns(env, w, username, password);
    case Validate(token) => ValidationRuns(env, w, token);
    case Logout(token) =>
      if token == "" {
        WaitedNot(env, w);
        OnlyWaited(env, w, w);
      } else {
        var marked := Mark(w, Revoke(token));
        MarkRuns(env, w, Revoke(token));
        DeleteSessionRuns(env, marked, token);
        RanInTurn(env, w, [Sent(w, Revoke(token))], marked, DeleteSends(env, marked, token),
                  DeleteSession(env, marked, token));
      }
    case Refresh(token) =>
      var (w1, reply) := ValidateToken(env, w, token);
      ValidationRuns(env, w, token);
      var first := if token == "" then [] else GetSends(env, w, token);
      assert first + [] == first;
      if reply.Valid? {
        RefreshSessionRuns(env, w1, token);
        RanInTurn(env, w, first, w1, RefreshSends(env, w1, token), RefreshSession(env, w1, token).0);
      }
    case LogoutEverywhere(user) => DeleteUserSessionsRuns(env, w, user);
  }

  // ----- and a careful one sends orderly commands

  /** The three commands of a creation start at i, in one instant. */
  ghost predicate CreatesAt(sends: seq<Sent>, i: nat) {
    && i + 2 < |sends| && IsCreation([sends[i].command, sends[i + 1].command, sends[i + 2].command])
    && sends[i + 1].before == Later(Execute(sends[i].before, sends[i].command), 0)
    && sends[i + 2].before == Later(Execute(sends[i + 1].before, sends[i + 1].command), 0)
  }

  /** Every SET begins a creation, and every other command is orderly. */
  ghost predicate AreGuaranteed(sends: seq<Sent>) {
    forall i: nat :: i < |sends| ==>
      if sends[i].command.SetSession? then CreatesAt(sends, i) else IsOrderly(sends[i].before, sends[i].command)
  }

  lemma GuaranteedInTurn(sends: seq<Sent>, more: seq<Sent>)
    requires AreGuaranteed(sends) && AreGuaranteed(more)
    ensures AreGuaranteed(sends + more)
  {
    var all := sends + more;
    hide IsOrderly, IsCreation;
    forall i: nat | i < |all|
      ensures if all[i].command.SetSession? then CreatesAt(all, i) else IsOrderly(all[i].before, all[i].command)
    {
      if i < |sends| {
        assert all[i] == sends[i];
        assert CreatesAt(sends, i) ==> all[i + 1] == sends[i + 1] && all[i + 2] == sends[i + 2];
      } else {
        var k := i - |sends|;
        assert all[i] == more[k];
        assert CreatesAt(more, k) ==> all[i + 1] == more[k + 1] && all[i + 2] == more[k + 2];
      }
    }
  }

  lemma CleanUpIsGuaranteed(env: Env, w: World, token: Token)
    ensures AreGuaranteed(CleanUpSends(env, w, token))
  {
    hide Redis, Wait;
  }

  lemma DeleteFoundIsGuaranteed(env: Env, w: World, token: Token, user: User)
    requires Sound(w) && Deletable(w, token) && token in w.issued && (env.redisOk(w.n + 1) ==> env.redisOk(w.n))
    ensures AreGuaranteed(FoundSends(env, w, token, user))
  {
    var w1 := Redis(env, w, DelSession(token)).0;
    DelClears(env, w, token);
    assert token in w1.issued;
    PassKeepsSound(env, w1, env.wait(w1.n));
    assert env.redisOk(w.n + 1) ==> !IsLive(Wait(env, w1).store, token);
    hide Sound, Evolves, Redis, Pass;
  }

  lemma GuaranteedNothing()
    ensures AreGuaranteed([])
  {}

  lemma {:induction false} GetSessionIsGuaranteed(env: Env, w: World, token: Token)
    requires Sound(w)
    ensures AreGuaranteed(GetSends(env, w, token))
    decreases if token in w.issued then 0 else 1, Remaining(w, token), 0
  {
    hide Pass, AreGuaranteed, Evolves;
    var w1 := Pass(env, w, 1 + env.wait(w.n));
    GuaranteedNothing();
    if env.redisOk(w.n) && IsLive(w1.store, token) {
      var w2 := Wait(env, w1);
      if w2.store.now > w1.store.sessions[token].session.expiresAt {
        ExpiredIsIssued(env, w, token);
        ExpiredMayBeDeleted(env, w, token);
        hide Sound;
        DeleteExpiredIsGuaranteed(env, w2, token);
      }
    }
  }

  lemma {:induction false} DeleteExpiredIsGuaranteed(env: Env, w: World, token: Token)
    requires Sound(w) && Deletable(w, token) && token in w.issued && w.store.now > w.issued[token].expiresAt
    ensures AreGuaranteed(DeleteSends(env, w, token))
    decreases if token in w.issued then 0 else 1, Remaining(w, token), 1
  {
    GetSessionIsGuaranteed(env, w, token);
    var (w1, found) := GetSession(env, w, token);
    if found.Some? {
      FoundMeansIssued(env, w, token);
    }
    assert found.None?;
    hide Sound, Evolves, AreGuaranteed;
    CleanUpIsGuaranteed(env, w1, token);
    GuaranteedInTurn(GetSends(env, w, token), CleanUpSends(env, w1, token));
  }

  lemma DeleteSessionIsGuaranteed(env: Env, w: World, token: Token)
    requires Sound(w) && Deletable(w, token) && DeletionIsCareful(env, w, token)
    ensures AreGuaranteed(DeleteSends(env, w, token))
  {
    hide Sound, Evolves, AreGuaranteed, GetSends, GetSession;
    GetSessionIsGuaranteed(env, w, token);
    var (w1, found) := GetSession(env, w, token);
    SecondHalf(env, w, token);
    if found.None? {
      CleanUpIsGuaranteed(env, w1, token);
      GuaranteedInTurn(GetSends(env, w, token), CleanUpSends(env, w1, token));
    } else {
      DeleteFoundIsGuaranteed(env, w1, token, found.value.user);
      GuaranteedInTurn(GetSends(env, w, token), FoundSends(env, w1, token, found.value.user));
    }
  }

  /** A creation, and possibly an audit statement after it. */
  lemma BlockIsGuaranteed(sends: seq<Sent>)
    requires CreatesAt(sends, 0) && forall i :: 3 <= i < |sends| ==> sends[i].command.UpsertAudit?
    ensures AreGuaranteed(sends)
  {}

  lemma CreateSessionIsGuaranteed(env: Env, w: World, user: User)
    requires IsFair(env) && Sound(w) && CreationIsInstant(env, w)
    ensures AreGuaranteed(CreateSends(env, w, user))
  {
    var (w1, stored) := StoreSession(env, w, user);
    if stored.Some? {
      var token := stored.value;
      var w2 := RedisAfterGap(env, w1, AddMember(user, token)).0;
      RedisAfterGapKeepsSound(env, w1, AddMember(user, token));
      assert token in w2.issued;
      hide Sound, Evolves, IsFair, Execute, Pass;
      QuietPass(env, w1, 0);
      QuietPass(env, w2, 0);
      hide Later;
      BlockIsGuaranteed(CreateSends(env, w, user));
    }
  }

  lemma MarkIsGuaranteed(w: World, command: Command)
    requires command.Revoke? || command.RevokeUser?
    ensures AreGuaranteed([Sent(w, command)])
  {}

  lemma SwapIsGuaranteed(env: Env, w: World, token: Token, user: User)
    requires IsFair(env) && Sound(w) && SwapIsCareful(env, w, token)
    ensures AreGuaranteed(SwapSends(env, w, token, user))
  {
    hide Sound, Evolves, IsFair, DeleteSends, CreateSends, DeleteSession, DeletionIsCareful, CreationIsInstant,
      AreGuaranteed;
    var marked := Mark(w, Revoke(token));
    var w1 := DeleteSession(env, marked, token);
    MarkIsGuaranteed(w, Revoke(token));
    DeleteSessionIsGuaranteed(env, marked, token);
    CreateSessionIsGuaranteed(env, w1, user);
    GuaranteedInTurn([Sent(w, Revoke(token))], DeleteSends(env, marked, token));
    GuaranteedInTurn([Sent(w, Revoke(token))] + DeleteSends(env, marked, token), CreateSends(env, w1, user));
  }

  lemma RefreshIsGuaranteed(env: Env, w: World, token: Token)
    requires IsFair(env) && Sound(w) && RefreshIsCareful(env, w, token)
    ensures AreGuaranteed(RefreshSends(env, w, token))
  {
    hide Sound, Evolves, IsFair, GetSession, GetSends, SwapSends, SwapIsCareful, AreGuaranteed;
    var (w1, session) := GetSession(env, w, token);
    GetSessionIsGuaranteed(env, w, token);
    assert GetSends(env, w, token) + [] == GetSends(env, w, token);
    if session.Some? {
      var (w2, found) := FindUser(env, w1, session.value.user);
      if found {
        SwapIsGuaranteed(env, w2, token, session.value.user);
        GuaranteedInTurn(GetSends(env, w, token), SwapSends(env, w2, token, session.value.user));
      }
    }
  }

  lemma {:induction false} ListedAreGuaranteed(env: Env, w: World, tokens: seq<Token>)
    requires Sound(w) && AllDeletable(w, tokens)
    ensures AreGuaranteed(ListedSends(env, w, tokens))
    decreases |tokens|
  {
    if tokens != [] {
      var w1 := CleanUp(env, w, tokens[0]);
      AllStayDeletable(w, w1, tokens);
      hide Sound, Evolves, CleanUp, CleanUpSends, AreGuaranteed;
      CleanUpIsGuaranteed(env, w, tokens[0]);
      ListedAreGuaranteed(env, w1, tokens[1..]);
      GuaranteedInTurn(CleanUpSends(env, w, tokens[0]), ListedSends(env, w1, tokens[1..]));
    }
  }

  lemma SetDeletionIsOrderly(env: Env, w: World, user: User)
    requires IsFair(env) && Sound(w) && Kept(w) && BulkIsCareful(env, w, user)
    requires env.redisOk(SetDelNumber(env, w, user))
    requires ListTokens(env, w, user).0.orderly
    ensures var (w1, tokens) := ListTokens(env, w, user);
            IsOrderly(Wait(env, DeleteListed(env, w1, tokens)), DelIndex(user))
  {
    hide Sound, Evolves, Kept, IsFair, ListTokens, DeleteListed, BulkIsCareful, Wait, IsLive;
    CarefulBulkLeavesNobody(env, w, user);
  }

  lemma LastStatementsAreGuaranteed(env: Env, w: World, user: User)
    requires env.redisOk(w.n) ==> IsOrderly(Wait(env, w), DelIndex(user))
    ensures AreGuaranteed(RedisSends(env, w, DelIndex(user))
                          + AuditSends(env, Redis(env, w, DelIndex(user)).0, DeleteUserAudit(user)))
  {
    hide Redis, Wait;
  }

  lemma BulkIsGuaranteed(env: Env, w: World, user: User)
    requires IsFair(env) && Sound(w) && Kept(w) && BulkIsCareful(env, w, user) && ListTokens(env, w, user).0.orderly
    ensures AreGuaranteed(BulkSends(env, w, user))
  {
    hide Sound, Evolves, Kept, IsFair, ListTokens, ListedSends, DeleteListed, Redis, RedisSends, AuditSends,
      BulkIsCareful,
      AreGuaranteed, Wait;
    var (w1, tokens) := ListTokens(env, w, user);
    var w2 := DeleteListed(env, w1, tokens);
    MarkIsGuaranteed(Wait(env, w), RevokeUser(user));
    ListedAreGuaranteed(env, w1, tokens);
    if env.redisOk(w2.n) {
      SetDeletionIsOrderly(env, w, user);
    }
    LastStatementsAreGuaranteed(env, w2, user);
    var first, second := [Sent(Wait(env, w), RevokeUser(user))], ListedSends(env, w1, tokens);
    var third := RedisSends(env, w2, DelIndex(user));
    var fourth := AuditSends(env, Redis(env, w2, DelIndex(user)).0, DeleteUserAudit(user));
    GuaranteedInTurn(first, second);
    GuaranteedInTurn(first + second, third + fourth);
    assert first + second + (third + fourth) == first + second + third + fourth;
  }

  lemma ListingBefore(env: Env, w: World, user: User)
    requires IsFair(env) && Sound(w) && DeleteUserSessions(env, w, user).orderly
    ensures ListTokens(env, w, user).0.orderly
  {
    hide Sound, IsFair, ListTokens, DeleteListed, Redis, Audit, Evolves;
    var (w1, tokens) := ListTokens(env, w, user);
    var w2 := DeleteListed(env, w1, tokens);
    var w3 := Redis(env, w2, DelIndex(user)).0;
    RedisKeepsSound(env, w2, DelIndex(user));
    AuditKeepsSound(env, w3, DeleteUserAudit(user));
    OrderBefore(w1, w2);
    OrderBefore(w2, w3);
    OrderBefore(w3, DeleteUserSessions(env, w, user));
  }

  /** Every command of a careful request is orderly where it is sent, and its creations run in one instant. */
  lemma CarefulRequestsAreOrderly(env: Env, w: World, request: Request)
    requires IsFair(env) && Sound(w) && Kept(w) && IsCareful(env, w, request) && Serve(env, w, request).0.orderly
    ensures AreGuaranteed(ServeSends(env, w, request))
  {
    hide Sound, Kept, IsFair, Evolves, GetSends, DeleteSends, CreateSends, RefreshSends, BulkSends, ServeLogin,
      ValidateToken, DeleteSession, RefreshSession, DeleteUserSessions, CreationIsInstant, DeletionIsCareful,
      RefreshIsCareful, BulkIsCareful, Pass, AreGuaranteed;
    GuaranteedNothing();
    match request
    case Login(username, password) =>
      PassKeepsSound(env, w, env.wait(w.n));
      if username in env.accounts {
        CreateSessionIsGuaranteed(env, Wait(env, w), env.accounts[username].user);
      }
    case Validate(token) => GetSessionIsGuaranteed(env, w, token);
    case Logout(token) =>
      if token != "" {
        MarkIsGuaranteed(w, Revoke(token));
        DeleteSessionIsGuaranteed(env, Mark(w, Revoke(token)), token);
        GuaranteedInTurn([Sent(w, Revoke(token))], DeleteSends(env, Mark(w, Revoke(token)), token));
      }
    case Refresh(token) =>
      var (w1, reply) := ValidateToken(env, w, token);
      GetSessionIsGuaranteed(env, w, token);
      if reply.Valid? {
        RefreshIsGuaranteed(env, w1, token);
        GuaranteedInTurn(if token == "" then [] else GetSends(env, w, token), RefreshSends(env, w1, token));
      } else {
        GuaranteedInTurn(if token == "" then [] else GetSends(env, w, token), []);
      }
    case LogoutEverywhere(user) =>
      ListingBefore(env, w, user);
      BulkIsGuaranteed(env, w, user);
  }
}
