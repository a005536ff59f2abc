/**
 A token's revocation is on record only if somebody asked for it: a request that names the token or revokes all tokens
 of its user, or another request's mark. Hence a returned token validates until it expires or is so named, whatever
 fails and whatever else other requests do. (auth_service.go:90-145)
 */
module SessionRevocation {
  import opened SessionStore
  import opened SessionLogic
  import opened SessionProperties

  /** In the waits numbered from first up to last no other request asks to revoke this token of this user. */
  ghost predicate OthersSpare(env: Env, token: Token, user: User, first: int, last: int) {
    forall n: nat, k: nat :: first <= n < last && k < |env.others(n)| ==>
      env.others(n)[k] != Revoke(token) && env.others(n)[k] != RevokeUser(user)
  }

  lemma SparedWithin(env: Env, token: Token, user: User, first: int, last: int, from: int, to: int)
    requires OthersSpare(env, token, user, first, last) && first <= from && to <= last
    ensures OthersSpare(env, token, user, from, to)
  {}

  ghost predicate Unrevoked(w: World, token: Token, user: User) {
    token in w.issued && w.issued[token].user == user && token !in w.revoked
  }

  lemma ExecuteSpares(w: World, command: Command, token: Token, user: User)
    requires Unrevoked(w, token, user) && Permitted(w, command) && command != Revoke(token)
    requires command != RevokeUser(user)
    ensures Unrevoked(Execute(w, command), token, user)
  {}

  lemma {:induction false} InterferenceSpares(w: World, commands: seq<Command>, token: Token, user: User)
    requires Unrevoked(w, token, user)
    requires forall k :: 0 <= k < |commands| ==> commands[k] != Revoke(token) && commands[k] != RevokeUser(user)
    ensures Unrevoked(Interfere(w, commands), token, user)
  {
    if commands != [] {
      var before, command := Interfere(w, commands[..|commands| - 1]), commands[|commands| - 1];
      InterferenceSpares(w, commands[..|commands| - 1], token, user);
      if Permitted(before, command) {
        ExecuteSpares(before, command, token, user);
      }
    }
  }

  lemma PassSpares(env: Env, w: World, time: nat, token: Token, user: User, first: int, last: int)
    requires OthersSpare(env, token, user, first, last) && first <= w.n < last && Unrevoked(w, token, user)
    ensures Unrevoked(Pass(env, w, time), token, user)
  {
    InterferenceSpares(Later(w, time), env.others(w.n), token, user);
  }

  lemma RedisSpares(env: Env, w: World, command: Command, token: Token, user: User, first: int, last: int)
    requires OthersSpare(env, token, user, first, last) && first <= w.n < last && Unrevoked(w, token, user)
    requires !command.SetSession? && !command.Revoke? && !command.RevokeUser?
    ensures Unrevoked(Redis(env, w, command).0, token, user) && Unrevoked(RedisAfterGap(env, w, command).0, token, user)
    ensures Unrevoked(Audit(env, w, command), token, user)
  {
    hide OthersSpare, Pass;
    PassSpares(env, w, env.wait(w.n), token, user, first, last);
    PassSpares(env, w, env.gap(w.n), token, user, first, last);
  }

  // ----- GetSession and DeleteSession

  lemma CleanUpSpares(env: Env, w: World, named: Token, token: Token, user: User, first: int, last: int)
    requires OthersSpare(env, token, user, first, last) && first <= w.n && w.n + 2 <= last
    requires Unrevoked(w, token, user) && Sound(w) && Deletable(w, named)
    ensures Unrevoked(CleanUp(env, w, named), token, user)
  {
    hide Sound, Evolves, OthersSpare, Unrevoked, Redis, Audit;
    RedisSpares(env, w, DelSession(named), token, user, first, last);
    RedisSpares(env, Redis(env, w, DelSession(named)).0, DeleteAudit(named), token, user, first, last);
  }

  lemma DeleteFoundSpares(env: Env, w: World, named: Token, owner: User, token: Token, user: User, first: int,
                          last: int)
    requires OthersSpare(env, token, user, first, last) && first <= w.n && w.n + 3 <= last
    requires Unrevoked(w, token, user) && Sound(w) && Deletable(w, named)
    ensures Unrevoked(DeleteFound(env, w, named, owner), token, user)
  {
    hide Sound, Evolves, OthersSpare, Unrevoked, Redis, Audit;
    var w1 := Redis(env, w, DelSession(named)).0;
    RedisSpares(env, w, DelSession(named), token, user, first, last);
    RedisSpares(env, w1, RemoveMember(owner, named), token, user, first, last);
    RedisSpares(env, Redis(env, w1, RemoveMember(owner, named)).0, DeleteAudit(named), token, user, first, last);
  }

  lemma {:induction false} GetSessionSpares(env: Env, w: World, named: Token, token: Token, user: User, first: int,
                                            last: int)
    requires Sound(w) && Unrevoked(w, token, user)
    requires OthersSpare(env, token, user, first, last) && first <= w.n && GetSession(env, w, named).0.n <= last
    ensures Unrevoked(GetSession(env, w, named).0, token, user)
    decreases if named in w.issued then 0 else 1, Remaining(w, named), 0
  {
    hide Sound, Evolves, OthersSpare, Unrevoked, Pass;
    PassSpares(env, w, 1 + env.wait(w.n), token, user, first, last);
    var w1 := Pass(env, w, 1 + env.wait(w.n));
    if env.redisOk(w.n) && IsLive(w1.store, named) {
      if Wait(env, w1).store.now > w1.store.sessions[named].session.expiresAt {
        ExpiredMayBeDeleted(env, w, named);
        PassSpares(env, w1, env.wait(w1.n), token, user, first, last);
        DeleteSessionSpares(env, Wait(env, w1), named, token, user, first, last);
      } else {
        PassSpares(env, w1, env.wait(w1.n), token, user, first, last);
      }
    }
  }

  lemma {:induction false} DeleteSessionSpares(env: Env, w: World, named: Token, token: Token, user: User, first: int,
                                               last: int)
    requires Sound(w) && Deletable(w, named) && Unrevoked(w, token, user)
    requires OthersSpare(env, token, user, first, last) && first <= w.n && DeleteSession(env, w, named).n <= last
    ensures Unrevoked(DeleteSession(env, w, named), token, user)
    decreases if named in w.issued then 0 else 1, Remaining(w, named), 1
  {
    var (w1, found) := GetSession(env, w, named);
    PermissionStays(w, w1, DelSession(named));
    hide Evolves, OthersSpare, Unrevoked;
    GetSessionSpares(env, w, named, token, user, first, last);
    hide Sound;
    if found.None? {
      CleanUpSpares(env, w1, named, token, user, first, last);
    } else {
      DeleteFoundSpares(env, w1, named, found.value.user, token, user, first, last);
    }
  }

  // ----- CreateSession, RefreshSession, DeleteUserSessions

  lemma StoreSessionSpares(env: Env, w: World, owner: User, token: Token, user: User, first: int, last: int)
    requires OthersSpare(env, token, user, first, last) && first <= w.n && w.n + 2 <= last
    requires Unrevoked(w, token, user) && IsFair(env) && Sound(w)
    ensures Unrevoked(StoreSession(env, w, owner).0, token, user)
  {
    var w0 := Wait(env, w);
    PassSpares(env, w, env.wait(w.n), token, user, first, last);
    PassSpares(env, w0, env.gap(w0.n), token, user, first, last);
    hide Sound, Evolves, OthersSpare, Pass;
  }

  /** A new token is not revoked, unless another request asks for it at once. */
  lemma NewTokenIsUnrevoked(env: Env, w: World, owner: User)
    requires IsFair(env) && Sound(w)
    ensures var (w', token) := StoreSession(env, w, owner); token.Some? ==> Unrevoked(w', token.value, owner)
  {
    hide Sound, Evolves, Pass;
  }

  lemma RestOfCreationSpares(env: Env, w: World, owner: User, created: Token, session: Session,
                             token: Token, user: User, first: int, last: int)
    requires OthersSpare(env, token, user, first, last) && first <= w.n && w.n + 3 <= last && Unrevoked(w, token, user)
    ensures var w2 := RedisAfterGap(env, w, AddMember(owner, created)).0;
            var w3 := RedisAfterGap(env, w2, ExpireIndex(owner)).0;
            Unrevoked(Audit(env, w3, UpsertAudit(created, session)), token, user)
  {
    hide OthersSpare, Unrevoked, RedisAfterGap, Audit;
    var w2 := RedisAfterGap(env, w, AddMember(owner, created)).0;
    RedisSpares(env, w, AddMember(owner, created), token, user, first, last);
    var w3 := RedisAfterGap(env, w2, ExpireIndex(owner)).0;
    RedisSpares(env, w2, ExpireIndex(owner), token, user, first, last);
    RedisSpares(env, w3, UpsertAudit(created, session), token, user, first, last);
  }

  /** What CreateSession does after its SET leaves a token's revocation off the record. */
  lemma AfterSetSpares(env: Env, w: World, owner: User, token: Token, user: User, first: int, last: int)
    requires IsFair(env) && Sound(w) && StoreSession(env, w, owner).1.Some?
    requires Unrevoked(StoreSession(env, w, owner).0, token, user)
    requires OthersSpare(env, token, user, first, last) && first <= w.n + 2 && CreateSession(env, w, owner).0.n <= last
    ensures Unrevoked(CreateSession(env, w, owner).0, token, user)
  {
    var (w1, stored) := StoreSession(env, w, owner);
    var (w2, added) := RedisAfterGap(env, w1, AddMember(owner, stored.value));
    RedisAfterGapKeepsSound(env, w1, AddMember(owner, stored.value));
    assert stored.value in w2.issued;
    hide Sound, Evolves, IsFair, OthersSpare, Unrevoked, StoreSession, RedisAfterGap, Audit;
    if added {
      RestOfCreationSpares(env, w1, owner, stored.value, w2.issued[stored.value], token, user, first, last);
    } else {
      RedisSpares(env, w1, AddMember(owner, stored.value), token, user, first, last);
    }
  }

  lemma CreateSessionSpares(env: Env, w: World, owner: User, token: Token, user: User, first: int, last: int)
    requires IsFair(env) && Sound(w) && Unrevoked(w, token, user)
    requires OthersSpare(env, token, user, first, last) && first <= w.n && CreateSession(env, w, owner).0.n <= last
    ensures Unrevoked(CreateSession(env, w, owner).0, token, user)
  {
    var stored := StoreSession(env, w, owner).1;
    assert w.n + 2 <= CreateSession(env, w, owner).0.n;
    hide Sound, Evolves, IsFair, OthersSpare, Unrevoked, StoreSession;
    StoreSessionSpares(env, w, owner, token, user, first, last);
    if stored.Some? {
      hide CreateSession;
      AfterSetSpares(env, w, owner, token, user, first, last);
    }
  }

  /** Since SET, three numbers before the end, nobody else has asked to revoke the session that the reply names. */
  ghost predicate SparedSinceSet(env: Env, w: World, reply: Reply) {
    reply.Issued? && OthersSpare(env, reply.token, reply.session.user, w.n - 3, w.n)
  }

  lemma CreatedIsUnrevoked(env: Env, w: World, owner: User)
    requires IsFair(env) && Sound(w)
    ensures var (w', reply) := CreateSession(env, w, owner);
            SparedSinceSet(env, w', reply) ==> Unrevoked(w', reply.token, reply.session.user)
  {
    var (w', reply) := CreateSession(env, w, owner);
    NewTokenIsUnrevoked(env, w, owner);
    if SparedSinceSet(env, w', reply) {
      var stored := StoreSession(env, w, owner).1;
      assert stored.Some? && stored.value == reply.token;
      hide Sound, Evolves, IsFair, OthersSpare, Unrevoked, StoreSession;
      AfterSetSpares(env, w, owner, reply.token, reply.session.user, w'.n - 3, w'.n);
    }
  }

  lemma MarkSpares(w: World, named: Token, token: Token, user: User)
    requires Sound(w) && Unrevoked(w, token, user) && token != named
    ensures Unrevoked(Mark(w, Revoke(named)), token, user)
  {}

  lemma SwapSpares(env: Env, w: World, named: Token, owner: User, token: Token, user: User, first: int, last: int)
    requires IsFair(env) && Sound(w) && Unrevoked(w, token, user) && token != named
    requires OthersSpare(env, token, user, first, last) && first <= w.n && SwapSession(env, w, named, owner).0.n <= last
    ensures Unrevoked(SwapSession(env, w, named, owner).0, token, user)
  {
    hide Sound, Evolves, IsFair, OthersSpare, Unrevoked, DeleteSession, CreateSession;
    var marked := Mark(w, Revoke(named));
    var w1 := DeleteSession(env, marked, named);
    MarkSpares(w, named, token, user);
    DeleteSessionSpares(env, marked, named, token, user, first, last);
    CreateSessionSpares(env, w1, owner, token, user, first, last);
  }

  lemma SwappedInIsUnrevoked(env: Env, w: World, named: Token, owner: User)
    requires IsFair(env) && Sound(w)
    ensures var (w', reply) := SwapSession(env, w, named, owner);
            SparedSinceSet(env, w', reply) ==> Unrevoked(w', reply.token, reply.session.user)
  {
    hide Sound, Evolves, IsFair, SparedSinceSet, Unrevoked, DeleteSession, CreateSession;
    CreatedIsUnrevoked(env, DeleteSession(env, Mark(w, Revoke(named)), named), owner);
  }

  lemma RefreshSessionSpares(env: Env, w: World, named: Token, token: Token, user: User, first: int, last: int)
    requires IsFair(env) && Sound(w) && Unrevoked(w, token, user) && token != named
    requires OthersSpare(env, token, user, first, last) && first <= w.n && RefreshSession(env, w, named).0.n <= last
    ensures Unrevoked(RefreshSession(env, w, named).0, token, user)
  {
    var (w1, session) := GetSession(env, w, named);
    hide Sound, Evolves, IsFair, OthersSpare, Unrevoked, GetSession, SwapSession, Pass;
    GetSessionSpares(env, w, named, token, user, first, last);
    if session.Some? {
      var w2 := FindUser(env, w1, session.value.user).0;
      PassSpares(env, w1, env.wait(w1.n), token, user, first, last);
      if FindUser(env, w1, session.value.user).1 {
        SwapSpares(env, w2, named, session.value.user, token, user, first, last);
      }
    }
  }

  lemma RefreshedIsUnrevoked(env: Env, w: World, named: Token)
    requires IsFair(env) && Sound(w)
    ensures var (w', reply) := RefreshSession(env, w, named);
            SparedSinceSet(env, w', reply) ==> Unrevoked(w', reply.token, reply.session.user)
  {
    var (w1, session) := GetSession(env, w, named);
    hide Sound, Evolves, IsFair, OthersSpare, Unrevoked, GetSession, SwapSession, Pass;
    if session.Some? {
      SwappedInIsUnrevoked(env, FindUser(env, w1, session.value.user).0, named, session.value.user);
    }
  }

  lemma {:induction false} DeleteListedSpares(env: Env, w: World, tokens: seq<Token>, token: Token, user: User,
                                              first: int, last: int)
    requires OthersSpare(env, token, user, first, last) && first <= w.n && w.n + 2 * |tokens| <= last
    requires Unrevoked(w, token, user) && Sound(w) && AllDeletable(w, tokens)
    ensures Unrevoked(DeleteListed(env, w, tokens), token, user)
    decreases |tokens|
  {
    if tokens != [] {
      AllStayDeletable(w, CleanUp(env, w, tokens[0]), tokens);
      CleanUpSpares(env, w, tokens[0], token, user, first, last);
      hide Sound, Evolves, OthersSpare, Unrevoked;
      DeleteListedSpares(env, CleanUp(env, w, tokens[0]), tokens[1..], token, user, first, last);
    }
  }

  lemma BulkSpares(env: Env, w: World, owner: User, token: Token, user: User, first: int, last: int)
    requires IsFair(env) && Sound(w) && Unrevoked(w, token, user) && user != owner
    requires OthersSpare(env, token, user, first, last) && first <= w.n && DeleteUserSessions(env, w, owner).n <= last
    ensures Unrevoked(DeleteUserSessions(env, w, owner), token, user)
  {
    hide Sound, Evolves, IsFair, OthersSpare, Redis, Audit, Pass;
    var (w1, tokens) := ListTokens(env, w, owner);
    PassSpares(env, w, env.wait(w.n), token, user, first, last);
    assert Unrevoked(w1, token, user);
    hide Unrevoked, ListTokens;
    var w2 := DeleteListed(env, w1, tokens);
    DeleteListedSpares(env, w1, tokens, token, user, first, last);
    RedisSpares(env, w2, DelIndex(owner), token, user, first, last);
    RedisSpares(env, Redis(env, w2, DelIndex(owner)).0, DeleteUserAudit(owner), token, user, first, last);
  }

  // ----- the authentication service

  /** Does the request ask to revoke this token of this user? */
  predicate AsksToRevoke(request: Request, token: Token, user: User) {
    request == Logout(token) || request == Refresh(token) || request == LogoutEverywhere(user)
  }

  lemma LoginSpares(env: Env, w: World, username: string, password: string, token: Token, user: User, first: int,
                    last: int)
    requires IsFair(env) && Sound(w) && Unrevoked(w, token, user)
    requires OthersSpare(env, token, user, first, last) && first <= w.n
    requires ServeLogin(env, w, username, password).0.n <= last
    ensures Unrevoked(ServeLogin(env, w, username, password).0, token, user)
  {
    if username != "" && password != "" {
      PassKeepsSound(env, w, env.wait(w.n));
      hide Sound, Evolves, IsFair, OthersSpare, Unrevoked, CreateSession, Pass;
      PassSpares(env, w, env.wait(w.n), token, user, first, last);
      if env.lookupOk(w.n) && username in env.accounts && env.matches(env.accounts[username].hash, password) {
        CreateSessionSpares(env, Wait(env, w), env.accounts[username].user, token, user, first, last);
      }
    }
  }

  lemma LoggedInIsUnrevoked(env: Env, w: World, username: string, password: string)
    requires IsFair(env) && Sound(w)
    ensures var (w', reply) := ServeLogin(env, w, username, password);
            SparedSinceSet(env, w', reply) ==> Unrevoked(w', reply.token, reply.session.user)
  {
    PassKeepsSound(env, w, env.wait(w.n));
    hide Sound, Evolves, IsFair, OthersSpare, Unrevoked, CreateSession, Pass;
    if username in env.accounts {
      CreatedIsUnrevoked(env, Wait(env, w), env.accounts[username].user);
    }
  }

  lemma ValidationSpares(env: Env, w: World, named: Token, token: Token, user: User, first: int, last: int)
    requires Sound(w) && Unrevoked(w, token, user)
    requires OthersSpare(env, token, user, first, last) && first <= w.n && ValidateToken(env, w, named).0.n <= last
    ensures Unrevoked(ValidateToken(env, w, named).0, token, user)
  {
    hide Sound, Evolves, OthersSpare, Unrevoked, GetSession, Pass;
    if named != "" {
      var (w1, session) := GetSession(env, w, named);
      GetSessionSpares(env, w, named, token, user, first, last);
      if session.Some? {
        PassSpares(env, w1, env.wait(w1.n), token, user, first, last);
      }
    }
  }

  lemma ServingSpares(env: Env, w: World, request: Request, token: Token, user: User, first: int, last: int)
    requires IsFair(env) && Sound(w) && Unrevoked(w, token, user) && !AsksToRevoke(request, token, user)
    requires OthersSpare(env, token, user, first, last) && first <= w.n && Serve(env, w, request).0.n <= last
    ensures Unrevoked(Serve(env, w, request).0, token, user)
  {
    hide Sound, Evolves, IsFair, OthersSpare, Unrevoked, ServeLogin, ValidateToken, RefreshSession, DeleteUserSessions,
      DeleteSession;
    match request
    case Login(username, password) => LoginSpares(env, w, username, password, token, user, first, last);
    case Refresh(named) =>
      var (w1, checked) := ValidateToken(env, w, named);
      ValidationSpares(env, w, named, token, user, first, last);
      if checked.Valid? {
        RefreshSessionSpares(env, w1, named, token, user, first, last);
      }
    case Validate(named) => ValidationSpares(env, w, named, token, user, first, last);
    case Logout(named) =>
      if named != "" {
        MarkSpares(w, named, token, user);
        DeleteSessionSpares(env, Mark(w, Revoke(named)), named, token, user, first, last);
      }
    case LogoutEverywhere(owner) => BulkSpares(env, w, owner, token, user, first, last);
  }

  lemma IssuedIsUnrevoked(env: Env, w: World, request: Request)
    requires IsFair(env) && Sound(w)
    ensures var (w', reply) := Serve(env, w, request);
            SparedSinceSet(env, w', reply) ==> Unrevoked(w', reply.token, reply.session.user)
  {
    hide Sound, Evolves, IsFair, OthersSpare, Unrevoked, ServeLogin, ValidateToken, RefreshSession, DeleteUserSessions,
      DeleteSession;
    if request.Login? {
      LoggedInIsUnrevoked(env, w, request.username, request.password);
    } else if request.Refresh? {
      RefreshedIsUnrevoked(env, ValidateToken(env, w, request.token).0, request.token);
    }
  }

  lemma {:induction false} RunSpares(env: Env, w: World, requests: seq<Request>, token: Token, user: User, first: int,
                                     last: int)
    requires IsFair(env) && Sound(w) && Unrevoked(w, token, user)
    requires OthersSpare(env, token, user, first, last) && first <= w.n && Run(env, w, requests).n <= last
    requires forall request :: request in requests ==> !AsksToRevoke(request, token, user)
    ensures Unrevoked(Run(env, w, requests), token, user)
  {
    hide Sound, Evolves, IsFair, OthersSpare, Unrevoked, Serve, AsksToRevoke;
    if requests != [] {
      var rest := requests[..|requests| - 1];
      RunSpares(env, w, rest, token, user, first, last);
      ServingSpares(env, Run(env, w, rest), requests[|requests| - 1], token, user, first, last);
    }
  }

  /**
   A token on record and not revoked validates after any requests that do not ask to revoke it, until it expires, if the
   validation's own GET and lookup succeed: whatever else fails, and whatever else others do meanwhile.
   */
  lemma UnrevokedTokensLive(env: Env, w: World, token: Token, later: seq<Request>)
    requires IsFair(env) && Sound(w) && token != "" && token in w.issued && w.issued[token].user in Users(env)
    requires token !in w.revoked
    requires OthersSpare(env, token, w.issued[token].user, w.n, ValidateToken(env, Run(env, w, later), token).0.n)
    requires forall next :: next in later ==> !AsksToRevoke(next, token, w.issued[token].user)
    ensures var w1 := Run(env, w, later);
            var (w2, answer) := ValidateToken(env, w1, token);
            env.redisOk(w1.n) && env.lookupOk(LookupNumber(env, w1, token))
            && w2.store.now < w.issued[token].expiresAt ==>
              answer == Valid(w.issued[token].user)
  {
    var w1, user := Run(env, w, later), w.issued[token].user;
    var last := ValidateToken(env, w1, token).0.n;
    assert w1.issued[token] == w.issued[token];
    hide Evolves, IsFair, OthersSpare, ValidateToken, Run, LookupNumber;
    RunSpares(env, w, later, token, user, w.n, last);
    ValidationSpares(env, w1, token, token, user, w.n, last);
    hide Sound;
    ValidatesExactlyUntilExpiry(env, w1, token);
  }

  /**
   The session service refines a plain map from token to user and expiry: whatever requests follow, a returned token
   validates to its own user strictly before it expires, unless one of them, or another request in some wait since its
   SET, names it or revokes all its user's tokens.
   */
  lemma TokensLiveUntilNamed(env: Env, w: World, request: Request, later: seq<Request>)
    requires IsFair(env) && Sound(w)
    ensures var (w1, reply) := Serve(env, w, request);
            reply.Issued? && reply.session.user in Users(env) ==>
              var w2 := Run(env, w1, later);
              var (w3, answer) := ValidateToken(env, w2, reply.token);
              OthersSpare(env, reply.token, reply.session.user, w1.n - 3, w3.n)
              && (forall next :: next in later ==> !AsksToRevoke(next, reply.token, reply.session.user))
              && env.redisOk(w2.n) && env.lookupOk(LookupNumber(env, w2, reply.token))
              && w3.store.now < reply.session.expiresAt
              ==> answer == Valid(reply.session.user)
  {
    hide Sound, Evolves, IsFair, OthersSpare, ValidateToken, Run, LookupNumber, Serve, AsksToRevoke;
    var (w1, reply) := Serve(env, w, request);
    if reply.Issued? && reply.session.user in Users(env) {
      var token, user := reply.token, reply.session.user;
      var last := ValidateToken(env, Run(env, w1, later), token).0.n;
      if OthersSpare(env, token, user, w1.n - 3, last)
         && forall next :: next in later ==> !AsksToRevoke(next, token, user)
      {
        SparedWithin(env, token, user, w1.n - 3, last, w1.n - 3, w1.n);
        SparedWithin(env, token, user, w1.n - 3, last, w1.n, last);
        IssuedIsUnrevoked(env, w, request);
        UnrevokedTokensLive(env, w1, token, later);
      }
    }
  }
}
