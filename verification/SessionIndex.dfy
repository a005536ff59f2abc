/**
 The per-user set of tokens (session_service.go:64-78, 112-141 and 165-189): it knows every live session of its user for
 as long as the session lives, so revoking a user's sessions through the set misses none. Redis commands may fail and
 other requests may run in every wait; what must not happen is stated command by command.
 */
module SessionIndex {
  import opened Options
  import opened SessionStore
  import opened SessionLogic
  import opened SessionProperties
  import opened SessionExact

  /** The token is in its user's set, and the set is kept no shorter than the session. */
  ghost predicate IsIndexed(w: World, token: Token)
    requires token in w.issued && token in w.store.sessions
  {
    var user := w.issued[token].user;
    && token in Members(w.store, user)
    && (w.store.index[user].deadline.Some? ==> w.store.sessions[token].deadline <= w.store.index[user].deadline.value)
  }

  ghost predicate IndexComplete(w: World) {
    forall token :: token in w.issued && IsLive(w.store, token) ==> IsIndexed(w, token)
  }

  /** A service that has issued nothing. */
  function Startup(now: int, ttl: nat): (w: World)
    ensures Sound(w) && IndexComplete(w)
  {
    World(Store(now, map[], map[], map[]), ttl, 0, map[], {}, true)
  }

  // ----- single commands

  lemma LaterKeepsIndexComplete(w: World, time: nat)
    requires IndexComplete(w)
    ensures IndexComplete(Later(w, time))
  {
    forall token | token in w.issued && IsLive(Later(w, time).store, token) ensures IsIndexed(Later(w, time), token) {
      assert IsIndexed(w, token);
    }
  }

  lemma FlagKeepsIndexComplete(w: World, orderly: bool)
    requires IndexComplete(w)
    ensures IndexComplete(w.(orderly := orderly))
  {
    forall token | token in w.issued && IsLive(w.store, token) ensures IsIndexed(w.(orderly := orderly), token) {
      assert IsIndexed(w, token);
    }
  }

  /**
   SREM leaves the index complete if and only if it does not take out a live session of that user, as it does when the
   DEL before it has failed.
   */
  lemma RemovalIsSafeExactlyIf(w: World, user: User, token: Token)
    requires IndexComplete(w)
    ensures IndexComplete(Execute(w, RemoveMember(user, token))) <==>
            !(token in w.issued && w.issued[token].user == user && IsLive(w.store, token))
  {
    var w' := Execute(w, RemoveMember(user, token));
    forall other | other in w.issued && IsLive(w.store, other)
      ensures other in w'.issued && IsLive(w'.store, other)
      ensures IsIndexed(w', other) <==> other != token || w.issued[other].user != user
    {
      assert IsIndexed(w, other);
      if other != token && w.issued[other].user == user {
        assert other in w.store.index[user].members - {token};
      }
    }
  }

  /**
   Deleting a user's set leaves the index complete if and only if the user has no live session, as it has when SMEMBERS
   or the DEL of a listed key has failed, or a login has come in between.
   */
  lemma DeletingTheSetIsSafeExactlyIf(w: World, user: User)
    requires IndexComplete(w)
    ensures IndexComplete(Execute(w, DelIndex(user))) <==>
            forall token :: token in w.issued && w.issued[token].user == user ==> !IsLive(w.store, token)
  {
    var w' := Execute(w, DelIndex(user));
    forall token | token in w.issued && IsLive(w.store, token)
      ensures token in w'.issued && IsLive(w'.store, token)
      ensures IsIndexed(w', token) <==> w.issued[token].user != user
    {
      assert IsIndexed(w, token);
    }
  }

  /** Every other command but SET leaves it complete always. */
  lemma OtherCommandsAreSafe(w: World, command: Command)
    requires IndexComplete(w) && KeysSound(w) && w.ttl > 0
    requires !command.SetSession? && !command.RemoveMember? && !command.DelIndex?
    ensures IndexComplete(Execute(w, command))
  {
    var w' := Execute(w, command);
    forall token | token in w'.issued && IsLive(w'.store, token) ensures IsIndexed(w', token) {
      assert IsIndexed(w, token);
    }
  }

  lemma OrderlyCommandsAreSafe(w: World, command: Command)
    requires IndexComplete(w) && Sound(w) && w.ttl > 0 && IsOrderly(w, command)
    ensures IndexComplete(Execute(w, command))
  {
    if command.RemoveMember? {
      RemovalIsSafeExactlyIf(w, command.user, command.token);
    } else if command.DelIndex? {
      DeletingTheSetIsSafeExactlyIf(w, command.user);
    } else {
      OtherCommandsAreSafe(w, command);
    }
  }

  // ----- a creation

  ghost predicate IndexCompleteBut(w: World, token: Token) {
    forall other :: other in w.issued && IsLive(w.store, other) && other != token ==> IsIndexed(w, other)
  }

  lemma SetIndexesOthers(w: World, token: Token, session: Session)
    requires IndexComplete(w) && token !in w.issued
    ensures IndexCompleteBut(Execute(w, SetSession(token, session)), token)
  {
    var w' := Execute(w, SetSession(token, session));
    forall other | other in w'.issued && IsLive(w'.store, other) && other != token ensures IsIndexed(w', other) {
      assert IsIndexed(w, other);
    }
  }

  lemma AddIndexes(w: World, user: User, token: Token)
    requires IndexCompleteBut(w, token)
    ensures var w' := Execute(w, AddMember(user, token));
            IndexCompleteBut(w', token) && token in Members(w'.store, user)
  {
    var w' := Execute(w, AddMember(user, token));
    forall other | other in w'.issued && IsLive(w'.store, other) && other != token ensures IsIndexed(w', other) {
      assert IsIndexed(w, other);
    }
  }

  lemma ExpireIndexes(w: World, user: User, token: Token)
    requires KeysSound(w) && w.ttl > 0 && IndexCompleteBut(w, token)
    requires token in w.issued && w.issued[token].user == user && token in Members(w.store, user)
    ensures IndexComplete(Execute(w, ExpireIndex(user)))
  {
    var w' := Execute(w, ExpireIndex(user));
    forall other | other in w'.issued && IsLive(w'.store, other) ensures IsIndexed(w', other) {
      assert other != token ==> IsIndexed(w, other);
    }
  }

  /** SET, SADD and EXPIRE in one instant. */
  lemma CreationIsSafe(w: World, token: Token, session: Session)
    requires IndexComplete(w) && Sound(w) && w.ttl > 0 && Permitted(w, SetSession(token, session))
    ensures var added := Execute(Execute(w, SetSession(token, session)), AddMember(session.user, token));
            IndexComplete(Execute(added, ExpireIndex(session.user)))
  {
    var w1 := Execute(w, SetSession(token, session));
    ExecuteKeepsKeys(w, SetSession(token, session));
    SetIndexesOthers(w, token, session);
    AddIndexes(w1, session.user, token);
    var w2 := Execute(w1, AddMember(session.user, token));
    ExecuteKeepsKeys(w1, AddMember(session.user, token));
    ExpireIndexes(w2, session.user, token);
  }

  /** SADD alone indexes a session for its whole life exactly if the set does not run out earlier. */
  lemma AddIndexesExactlyIf(w: World, user: User, token: Token)
    requires token in w.issued && token in w.store.sessions && w.issued[token].user == user
    ensures IsIndexed(Execute(w, AddMember(user, token)), token) <==>
            (IndexIsLive(w.store, user) && w.store.index[user].deadline.Some? ==>
               w.store.sessions[token].deadline <= w.store.index[user].deadline.value)
  {}

  /** Does the command change this user's set? */
  predicate Concerns(command: Command, user: User) {
    (command.AddMember? || command.ExpireIndex? || command.RemoveMember? || command.DelIndex?) && command.user == user
  }

  /** In wait number n no other request changes the user's set. */
  ghost predicate OthersLeaveSet(env: Env, user: User, n: nat) {
    forall k :: 0 <= k < |env.others(n)| ==> !Concerns(env.others(n)[k], user)
  }

  predicate SameSet(v: Store, w: Store, user: User) {
    (user in v.index <==> user in w.index) && (user in v.index ==> v.index[user] == w.index[user])
  }

  lemma ExecuteLeavesSet(w: World, command: Command, user: User)
    requires !Concerns(command, user)
    ensures SameSet(w.store, Execute(w, command).store, user)
  {}

  lemma {:induction false} InterferenceLeavesSet(w: World, commands: seq<Command>, user: User)
    requires forall k :: 0 <= k < |commands| ==> !Concerns(commands[k], user)
    ensures SameSet(w.store, Interfere(w, commands).store, user)
  {
    hide Concerns, Execute, Permitted;
    if commands != [] {
      InterferenceLeavesSet(w, commands[..|commands| - 1], user);
      ExecuteLeavesSet(Interfere(w, commands[..|commands| - 1]), commands[|commands| - 1], user);
    }
  }

  lemma PassLeavesSet(env: Env, w: World, time: nat, user: User)
    requires OthersLeaveSet(env, user, w.n)
    ensures SameSet(w.store, Pass(env, w, time).store, user)
  {
    InterferenceLeavesSet(Later(w, time), env.others(w.n), user);
  }

  /** The world right after CreateSession's SADD, and right after its EXPIRE, if it comes to that. */
  function AfterAdd(env: Env, w: World, user: User): World
    requires IsFair(env) && Sound(w)
  {
    var (w1, stored) := StoreSession(env, w, user);
    if stored.Some? then RedisAfterGap(env, w1, AddMember(user, stored.value)).0 else w1
  }

  function AfterExpire(env: Env, w: World, user: User): World
    requires IsFair(env) && Sound(w)
  {
    var added := AfterAdd(env, w, user);
    if env.redisOk(w.n + 1) && env.redisOk(w.n + 2) then RedisAfterGap(env, added, ExpireIndex(user)).0 else added
  }

  predicate InSet(store: Store, user: User, token: Token) {
    user in store.index && token in store.index[user].members
  }

  lemma NewTokenIsInNoSet(env: Env, w: World, user: User)
    requires IsFair(env) && Sound(w)
    ensures var (w', token) := StoreSession(env, w, user); token.Some? ==> !InSet(w'.store, user, token.value)
  {
    var w0 := Wait(env, w);
    PassKeepsSound(env, w, env.wait(w.n));
    var w1 := Pass(env, w0, env.gap(w0.n));
    PassKeepsSound(env, w0, env.gap(w0.n));
    assert IndexSound(w1);
    hide Sound, Pass, Evolves;
  }

  lemma AddedExactlyIf(env: Env, w: World, user: User, token: Token)
    requires !InSet(w.store, user, token) && OthersLeaveSet(env, user, w.n)
    ensures var w' := RedisAfterGap(env, w, AddMember(user, token)).0;
            (InSet(w'.store, user, token) <==> env.redisOk(w.n)) && (env.redisOk(w.n) ==> IndexIsLive(w'.store, user))
  {
    hide OthersLeaveSet, Pass;
    PassLeavesSet(env, w, env.gap(w.n), user);
  }

  /**
   Does a set with this deadline after SADD last as long as the session? It must not have run out, and unless command
   number expire gives it a new deadline, its old one must not be earlier than the session's.
   */
  predicate Lasts(env: Env, deadline: Option<int>, w: World, token: Token, expire: nat)
    requires token in w.store.sessions
  {
    deadline.Some? ==>
      w.store.now < deadline.value && (env.redisOk(expire) || w.store.sessions[token].deadline <= deadline.value)
  }

  lemma ExpireIndexesExactlyIf(env: Env, w: World, user: User, token: Token)
    requires Sound(w) && w.ttl > 0 && token in w.issued && w.issued[token].user == user && InSet(w.store, user, token)
    requires OthersLeaveSet(env, user, w.n)
    ensures var w' := RedisAfterGap(env, w, ExpireIndex(user)).0;
            && token in w'.issued
            && (token in w'.store.sessions ==>
                  (IsIndexed(w', token) <==> Lasts(env, w.store.index[user].deadline, w', token, w.n)))
  {
    var before := Pass(env, w, env.gap(w.n));
    PassKeepsSound(env, w, env.gap(w.n));
    assert KeysSound(before) && before.issued[token] == w.issued[token];
    hide OthersLeaveSet, Sound, Pass, Evolves;
    PassLeavesSet(env, w, env.gap(w.n), user);
  }

  /**
   Whatever the time between the commands, and whatever others do but change this user's set once the session is stored:
   when CreateSession has come to its audit row or its error, the session it has stored is indexed for its whole life
   exactly if SADD succeeded, the set that it left has not run out, and EXPIRE succeeded or the set lasts long enough
   anyway.
   */
  lemma CreationIndexesExactlyIf(env: Env, w: World, user: User)
    requires IsFair(env) && Sound(w) && w.ttl > 0 && env.redisOk(w.n + 1)
    requires OthersLeaveSet(env, user, w.n + 2) && OthersLeaveSet(env, user, w.n + 3)
    ensures var stored := StoreSession(env, w, user).1;
            var (added, w') := (AfterAdd(env, w, user), AfterExpire(env, w, user));
            && stored.Some? && stored.value in w'.issued && (env.redisOk(w.n + 2) ==> user in added.store.index)
            && (stored.value in w'.store.sessions ==>
                  (IsIndexed(w', stored.value) <==>
                     env.redisOk(w.n + 2) && Lasts(env, added.store.index[user].deadline, w', stored.value, w.n + 3)))
  {
    var (w1, stored) := StoreSession(env, w, user);
    NewTokenIsInNoSet(env, w, user);
    assert w1.ttl == w.ttl;
    var token := stored.value;
    var added := AfterAdd(env, w, user);
    RedisAfterGapKeepsSound(env, w1, AddMember(user, token));
    assert token in added.issued && added.issued[token].user == user && added.ttl == w.ttl;
    hide Sound, Evolves, IsFair, OthersLeaveSet, StoreSession, RedisAfterGap, Lasts;
    AddedExactlyIf(env, w1, user, token);
    if env.redisOk(w.n + 2) {
      ExpireIndexesExactlyIf(env, added, user, token);
    }
  }

  // ----- what other requests do

  function Try(w: World, command: Command): World {
    if Permitted(w, command) then Execute(w, command) else w
  }

  lemma TryKeepsSound(w: World, command: Command)
    requires Sound(w)
    ensures Sound(Try(w, command)) && Try(w, command).ttl == w.ttl
  {
    if Permitted(w, command) {
      ExecuteKeepsSound(w, command);
    }
  }

  lemma SoundKeys(w: World)
    requires Sound(w)
    ensures KeysSound(w)
  {}

  lemma BlockIsSafe(w: World, token: Token, session: Session)
    requires IndexComplete(w) && Sound(w) && w.ttl > 0
    ensures var added := Try(Try(w, SetSession(token, session)), AddMember(session.user, token));
            IndexComplete(Try(added, ExpireIndex(session.user)))
  {
    if Permitted(w, SetSession(token, session)) {
      CreationIsSafe(w, token, session);
    } else {
      hide IndexComplete, Sound;
      var w2 := Try(w, AddMember(session.user, token));
      TryKeepsSound(w, AddMember(session.user, token));
      SoundKeys(w);
      SoundKeys(w2);
      if Permitted(w, AddMember(session.user, token)) {
        OtherCommandsAreSafe(w, AddMember(session.user, token));
      }
      OtherCommandsAreSafe(w2, ExpireIndex(session.user));
    }
  }

  lemma LastOne(w: World, commands: seq<Command>, n: nat)
    requires 0 < n <= |commands|
    ensures Interfere(w, commands[..n]) == Try(Interfere(w, commands[..n - 1]), commands[n - 1])
  {
    assert commands[..n][..n - 1] == commands[..n - 1];
  }

  lemma LastThree(w: World, commands: seq<Command>)
    requires |commands| >= 3
    ensures var n := |commands|;
            Interfere(w, commands) ==
              Try(Try(Try(Interfere(w, commands[..n - 3]), commands[n - 3]), commands[n - 2]), commands[n - 1])
  {
    hide Interfere, Try;
    var n := |commands|;
    assert commands[..n] == commands;
    LastOne(w, commands, n);
    LastOne(w, commands, n - 1);
    LastOne(w, commands, n - 2);
  }

  lemma {:induction false} InterferenceKeepsIndexComplete(w: World, commands: seq<Command>)
    requires IndexComplete(w) && Sound(w) && w.ttl > 0 && AreOrderly(w, commands)
    ensures IndexComplete(Interfere(w, commands))
    decreases |commands|
  {
    var n := |commands|;
    if n >= 3 && IsCreation(commands[n - 3..]) {
      var before := Interfere(w, commands[..n - 3]);
      InterferenceKeepsIndexComplete(w, commands[..n - 3]);
      InterferenceKeepsSound(w, commands[..n - 3]);
      LastThree(w, commands);
      BlockIsSafe(before, commands[n - 3].token, commands[n - 3].session);
    } else if n > 0 {
      var before := Interfere(w, commands[..n - 1]);
      InterferenceKeepsIndexComplete(w, commands[..n - 1]);
      InterferenceKeepsSound(w, commands[..n - 1]);
      OrderlyCommandsAreSafe(before, commands[n - 1]);
    }
  }

  // ----- the requests, with failures and interference

  ghost predicate Kept(w: World) {
    IndexComplete(w) && w.ttl > 0
  }

  lemma OrderBefore(v: World, w: World)
    requires Evolves(v, w)
    ensures v.ttl == w.ttl && (w.orderly ==> v.orderly)
  {}

  lemma PassKeeps(env: Env, w: World, time: nat)
    requires Sound(w) && Kept(w) && Pass(env, w, time).orderly
    ensures Kept(Pass(env, w, time)) && Sound(Pass(env, w, time)) && w.orderly
  {
    var later := Later(w, time);
    LaterKeepsSound(w, time);
    LaterKeepsIndexComplete(w, time);
    PassKeepsSound(env, w, time);
    hide Sound, IndexComplete, Interfere, AreOrderly;
    InterferenceKeepsIndexComplete(later, env.others(w.n));
    FlagKeepsIndexComplete(Interfere(later, env.others(w.n)), true);
    OrderBefore(w, Pass(env, w, time));
  }

  lemma DelKeeps(env: Env, w: World, token: Token)
    requires Sound(w) && Kept(w) && Deletable(w, token) && Redis(env, w, DelSession(token)).0.orderly
    ensures Kept(Redis(env, w, DelSession(token)).0)
  {
    hide Sound, IndexComplete, Pass;
    PassKeeps(env, w, env.wait(w.n));
    SoundKeys(Wait(env, w));
    OtherCommandsAreSafe(Wait(env, w), DelSession(token));
  }

  lemma AuditKeeps(env: Env, w: World, command: Command)
    requires Sound(w) && Kept(w) && (command.UpsertAudit? || command.DeleteAudit? || command.DeleteUserAudit?)
    requires Audit(env, w, command).orderly
    ensures Kept(Audit(env, w, command))
  {
    hide Sound, IndexComplete, Pass;
    PassKeeps(env, w, env.wait(w.n));
    SoundKeys(Wait(env, w));
    OtherCommandsAreSafe(Wait(env, w), command);
  }

  lemma CleanUpKeeps(env: Env, w: World, token: Token)
    requires Sound(w) && Kept(w) && Deletable(w, token) && CleanUp(env, w, token).orderly
    ensures Kept(CleanUp(env, w, token))
  {
    var w1 := Redis(env, w, DelSession(token)).0;
    RedisKeepsSound(env, w, DelSession(token));
    PermissionStays(w, w1, DeleteAudit(token));
    AuditKeepsSound(env, w1, DeleteAudit(token));
    hide Sound, Kept, Evolves, Redis, Audit;
    OrderBefore(w1, Audit(env, w1, DeleteAudit(token)));
    DelKeeps(env, w, token);
    AuditKeeps(env, w1, DeleteAudit(token));
  }

  /** The SREM of DeleteSession is safe if it succeeds only after its DEL did. */
  lemma RemovalKeeps(env: Env, w: World, token: Token, user: User)
    requires Sound(w) && Kept(w) && token in w.issued && Redis(env, w, RemoveMember(user, token)).0.orderly
    requires env.redisOk(w.n) ==> token !in w.store.sessions
    ensures Kept(Redis(env, w, RemoveMember(user, token)).0)
  {
    var w1 := Wait(env, w);
    PassKeepsSound(env, w, env.wait(w.n));
    assert env.redisOk(w.n) ==> token !in w1.store.sessions;
    hide Sound, IndexComplete, Pass, Evolves;
    PassKeeps(env, w, env.wait(w.n));
    if env.redisOk(w.n) {
      RemovalIsSafeExactlyIf(w1, user, token);
    }
  }

  lemma DeleteFoundKeeps(env: Env, w: World, token: Token, user: User)
    requires Sound(w) && Kept(w) && Deletable(w, token) && token in w.issued && DeleteFound(env, w, token, user).orderly
    requires env.redisOk(w.n + 1) ==> env.redisOk(w.n)
    ensures Kept(DeleteFound(env, w, token, user))
  {
    var w1 := Redis(env, w, DelSession(token)).0;
    DelClears(env, w, token);
    PermissionStays(w, w1, RemoveMember(user, token));
    assert token in w1.issued;
    var w2 := Redis(env, w1, RemoveMember(user, token)).0;
    RedisKeepsSound(env, w1, RemoveMember(user, token));
    PermissionStays(w1, w2, DeleteAudit(token));
    AuditKeepsSound(env, w2, DeleteAudit(token));
    hide Sound, Kept, Evolves, Redis, Audit;
    OrderBefore(w2, Audit(env, w2, DeleteAudit(token)));
    OrderBefore(w1, w2);
    DelKeeps(env, w, token);
    RemovalKeeps(env, w1, token, user);
    AuditKeeps(env, w2, DeleteAudit(token));
  }

  /** DeleteSession's SREM, if there is one, does not succeed after its DEL has failed. */
  ghost predicate DeletionIsCareful(env: Env, w: World, token: Token)
    requires Sound(w)
  {
    var (w1, found) := GetSession(env, w, token);
    found.Some? && env.redisOk(w1.n + 1) ==> env.redisOk(w1.n)
  }

  /** A lookup needs no care: an expired session is not found again by the deletion that GetSession starts. */
  lemma {:induction false} GetSessionKeeps(env: Env, w: World, token: Token)
    requires Sound(w) && Kept(w) && GetSession(env, w, token).0.orderly
    ensures Kept(GetSession(env, w, token).0)
    decreases if token in w.issued then 0 else 1, Remaining(w, token), 0
  {
    hide Sound, Kept, Pass, Evolves;
    var w1 := Pass(env, w, 1 + env.wait(w.n));
    var w2 := Wait(env, w1);
    PassKeepsSound(env, w, 1 + env.wait(w.n));
    PassKeepsSound(env, w1, env.wait(w1.n));
    if env.redisOk(w.n) && IsLive(w1.store, token) {
      var expired := w2.store.now > w1.store.sessions[token].session.expiresAt;
      if expired {
        ExpiredMayBeDeleted(env, w, token);
        ExpiredIsIssued(env, w, token);
        OrderBefore(w2, DeleteSession(env, w2, token));
      }
      OrderBefore(w1, w2);
      PassKeeps(env, w, 1 + env.wait(w.n));
      PassKeeps(env, w1, env.wait(w1.n));
      if expired {
        DeleteExpiredKeeps(env, w2, token);
      }
    } else {
      PassKeeps(env, w, 1 + env.wait(w.n));
    }
  }

  lemma {:induction false} DeleteExpiredKeeps(env: Env, w: World, token: Token)
    requires Sound(w) && Kept(w) && token in w.issued && w.store.now > w.issued[token].expiresAt
    requires DeleteSession(env, w, token).orderly
    ensures Kept(DeleteSession(env, w, token))
    decreases if token in w.issued then 0 else 1, Remaining(w, token), 1
  {
    var (w1, found) := GetSession(env, w, token);
    if found.Some? {
      FoundMeansIssued(env, w, token);
    }
    PermissionStays(w, w1, DelSession(token));
    assert Evolves(w1, CleanUp(env, w1, token));
    assert found.None?;
    hide Sound, Kept, Evolves;
    OrderBefore(w1, CleanUp(env, w1, token));
    GetSessionKeeps(env, w, token);
    CleanUpKeeps(env, w1, token);
  }

  lemma SecondHalf(env: Env, w: World, token: Token)
    requires Sound(w) && Deletable(w, token)
    ensures var (w1, found) := GetSession(env, w, token);
            && Deletable(w1, token) && Evolves(w1, DeleteSession(env, w, token))
            && (found.Some? ==> token in w1.issued)
  {
    var (w1, found) := GetSession(env, w, token);
    PermissionStays(w, w1, DelSession(token));
    if found.Some? {
      FoundMeansIssued(env, w, token);
    }
    hide Sound, Evolves, GetSession;
  }

  lemma DeleteSessionKeeps(env: Env, w: World, token: Token)
    requires Sound(w) && Kept(w) && Deletable(w, token) && DeletionIsCareful(env, w, token)
    requires DeleteSession(env, w, token).orderly
    ensures Kept(DeleteSession(env, w, token))
  {
    hide Sound, Kept, Evolves, GetSession;
    var (w1, found) := GetSession(env, w, token);
    SecondHalf(env, w, token);
    OrderBefore(w1, DeleteSession(env, w, token));
    GetSessionKeeps(env, w, token);
    if found.Some? {
      DeleteFoundKeeps(env, w1, token, found.value.user);
    } else {
      CleanUpKeeps(env, w1, token);
    }
  }

  /** If CreateSession's SET succeeds, its SADD and EXPIRE do too, in the same instant and with nobody in between. */
  ghost predicate CreationIsInstant(env: Env, w: World) {
    var n := w.n + 1;
    env.redisOk(n) ==>
      && env.redisOk(n + 1) && env.gap(n + 1) == 0 && env.others(n + 1) == []
      && env.redisOk(n + 2) && env.gap(n + 2) == 0 && env.others(n + 2) == []
  }

  lemma LaterKeepsIndexCompleteBut(w: World, token: Token)
    requires IndexCompleteBut(w, token)
    ensures IndexCompleteBut(Later(w, 0), token)
  {
    forall other | other in w.issued && IsLive(w.store, other) && other != token ensures IsIndexed(Later(w, 0), other) {
      assert IsIndexed(w, other);
    }
  }

  lemma SessionIsStored(env: Env, w: World, user: User)
    requires IsFair(env) && Sound(w) && Kept(w)
    ensures var (w', token) := StoreSession(env, w, user);
            && (token.None? && w'.orderly ==> Kept(w'))
            && (token.Some? ==> env.redisOk(w.n + 1) && (w'.orderly ==> IndexCompleteBut(w', token.value)))
            && w'.n == w.n + 2 && w'.ttl == w.ttl
  {
    var w0 := Wait(env, w);
    PassKeepsSound(env, w, env.wait(w.n));
    var w1 := Pass(env, w0, env.gap(w0.n));
    PassKeepsSound(env, w0, env.gap(w0.n));
    hide Sound, IndexComplete, Pass, KeysOnlyGo;
    if w1.orderly {
      PassKeeps(env, w, env.wait(w.n));
      PassKeeps(env, w0, env.gap(w0.n));
      if env.redisOk(w0.n) {
        SetIndexesOthers(w1, Drawn(env, w1, w0.n), Session(user, w0.store.now + w0.ttl));
      }
    }
  }

  lemma StoredSessionIsIndexed(env: Env, w: World, user: User, token: Token)
    requires Sound(w) && w.ttl > 0 && IndexCompleteBut(w, token) && token in w.issued && w.issued[token].user == user
    requires env.redisOk(w.n) && env.gap(w.n) == 0 && env.others(w.n) == []
    requires env.redisOk(w.n + 1) && env.gap(w.n + 1) == 0 && env.others(w.n + 1) == []
    ensures var (w2, added) := RedisAfterGap(env, w, AddMember(user, token));
            added && Kept(RedisAfterGap(env, w2, ExpireIndex(user)).0)
  {
    hide Sound, KeysSound, IndexComplete, IndexCompleteBut, IsIndexed, Evolves, Apply;
    QuietPass(env, w, 0);
    LaterKeepsIndexCompleteBut(w, token);
    AddIndexes(Later(w, 0), user, token);
    LaterKeepsSound(w, 0);
    var w2 := RedisAfterGap(env, w, AddMember(user, token)).0;
    ExecuteKeepsSound(Later(w, 0), AddMember(user, token));
    QuietPass(env, w2, 0);
    LaterKeepsIndexCompleteBut(w2, token);
    LaterKeepsSound(w2, 0);
    SoundKeys(Later(w2, 0));
    ExpireIndexes(Later(w2, 0), user, token);
  }

  lemma RecordingKeeps(env: Env, w: World, w2: World, user: User, token: Token, session: Session)
    requires Sound(w) && w.ttl > 0 && (w.orderly ==> IndexCompleteBut(w, token)) && token in w.issued
    requires w.issued[token].user == user
    requires env.redisOk(w.n) && env.gap(w.n) == 0 && env.others(w.n) == []
    requires env.redisOk(w.n + 1) && env.gap(w.n + 1) == 0 && env.others(w.n + 1) == []
    requires w2 == RedisAfterGap(env, w, AddMember(user, token)).0 && token in w2.issued && session == w2.issued[token]
    ensures var w4 := Audit(env, RedisAfterGap(env, w2, ExpireIndex(user)).0, UpsertAudit(token, session));
            w4.orderly ==> Kept(w4)
  {
    var w3 := RedisAfterGap(env, w2, ExpireIndex(user)).0;
    RedisAfterGapKeepsSound(env, w, AddMember(user, token));
    RedisAfterGapKeepsSound(env, w2, ExpireIndex(user));
    assert Permitted(w3, UpsertAudit(token, session));
    AuditKeepsSound(env, w3, UpsertAudit(token, session));
    hide Sound, Evolves, IndexCompleteBut, RedisAfterGap, Audit, Kept;
    var w4 := Audit(env, w3, UpsertAudit(token, session));
    OrderBefore(w, w2);
    OrderBefore(w2, w3);
    OrderBefore(w3, w4);
    if w4.orderly {
      StoredSessionIsIndexed(env, w, user, token);
      AuditKeeps(env, w3, UpsertAudit(token, session));
    }
  }

  lemma StaysIssued(v: World, w: World, token: Token)
    requires Evolves(v, w) && token in v.issued
    ensures token in w.issued && w.issued[token] == v.issued[token]
  {}

  lemma CreateSessionKeeps(env: Env, w: World, user: User)
    requires IsFair(env) && Sound(w) && Kept(w) && CreationIsInstant(env, w) && CreateSession(env, w, user).0.orderly
    ensures Kept(CreateSession(env, w, user).0)
  {
    hide Sound, Evolves, IndexComplete, IndexCompleteBut, IsFair, StoreSession, Audit, Pass;
    var (w1, stored) := StoreSession(env, w, user);
    SessionIsStored(env, w, user);
    if stored.Some? {
      var token := stored.value;
      var w2 := RedisAfterGap(env, w1, AddMember(user, token)).0;
      RedisAfterGapKeepsSound(env, w1, AddMember(user, token));
      StaysIssued(w1, w2, token);
      RecordingKeeps(env, w1, w2, user, token, w2.issued[token]);
    }
  }

  // ----- whole requests

  lemma ValidateKeeps(env: Env, w: World, token: Token)
    requires Sound(w) && Kept(w) && ValidateToken(env, w, token).0.orderly
    ensures Kept(ValidateToken(env, w, token).0)
  {
    if token != "" {
      var w1 := GetSession(env, w, token).0;
      PassKeepsSound(env, w1, env.wait(w1.n));
      hide Sound, Kept, Evolves, GetSession, Pass;
      OrderBefore(w1, Wait(env, w1));
      GetSessionKeeps(env, w, token);
      if GetSession(env, w, token).1.Some? {
        PassKeeps(env, w1, env.wait(w1.n));
      }
    }
  }

  lemma MarkKeeps(w: World, token: Token)
    requires Sound(w) && Kept(w)
    ensures Kept(Mark(w, Revoke(token))) && Mark(w, Revoke(token)).orderly == w.orderly
  {
    SoundKeys(w);
    hide Sound, Evolves;
    OtherCommandsAreSafe(w, Revoke(token));
  }

  /** Both halves of a swap are careful. */
  ghost predicate SwapIsCareful(env: Env, w: World, token: Token)
    requires Sound(w)
  {
    var marked := Mark(w, Revoke(token));
    DeletionIsCareful(env, marked, token) && CreationIsInstant(env, DeleteSession(env, marked, token))
  }

  ghost predicate RefreshIsCareful(env: Env, w: World, token: Token)
    requires Sound(w)
  {
    var (w1, session) := GetSession(env, w, token);
    session.Some? ==> SwapIsCareful(env, FindUser(env, w1, session.value.user).0, token)
  }

  lemma SwapKeeps(env: Env, w: World, token: Token, user: User)
    requires IsFair(env) && Sound(w) && Kept(w) && SwapIsCareful(env, w, token)
    requires SwapSession(env, w, token, user).0.orderly
    ensures Kept(SwapSession(env, w, token, user).0)
  {
    hide Sound, Kept, Evolves, IsFair, DeleteSession, CreateSession, DeletionIsCareful, CreationIsInstant;
    var marked := Mark(w, Revoke(token));
    var w1 := DeleteSession(env, marked, token);
    OrderBefore(w1, CreateSession(env, w1, user).0);
    MarkKeeps(w, token);
    DeleteSessionKeeps(env, marked, token);
    CreateSessionKeeps(env, w1, user);
  }

  lemma RefreshKeeps(env: Env, w: World, token: Token)
    requires IsFair(env) && Sound(w) && Kept(w) && RefreshIsCareful(env, w, token)
    requires RefreshSession(env, w, token).0.orderly
    ensures Kept(RefreshSession(env, w, token).0)
  {
    hide Sound, Kept, Evolves, IsFair, GetSession, SwapSession, SwapIsCareful, Pass;
    var (w1, session) := GetSession(env, w, token);
    if session.None? {
      GetSessionKeeps(env, w, token);
    } else {
      var user := session.value.user;
      var (w2, found) := FindUser(env, w1, user);
      OrderBefore(w1, w2);
      if found {
        OrderBefore(w2, SwapSession(env, w2, token, user).0);
      }
      GetSessionKeeps(env, w, token);
      PassKeeps(env, w1, env.wait(w1.n));
      if found {
        SwapKeeps(env, w2, token, user);
      }
    }
  }

  lemma LoginKeeps(env: Env, w: World, username: string, password: string)
    requires IsFair(env) && Sound(w) && Kept(w) && CreationIsInstant(env, Wait(env, w))
    requires ServeLogin(env, w, username, password).0.orderly
    ensures Kept(ServeLogin(env, w, username, password).0)
  {
    if username != "" && password != "" {
      var w1 := Wait(env, w);
      PassKeepsSound(env, w, env.wait(w.n));
      hide Sound, Kept, Pass, CreateSession, CreationIsInstant, IsFair, KeysOnlyGo;
      if env.lookupOk(w.n) && username in env.accounts && env.matches(env.accounts[username].hash, password) {
        OrderBefore(w1, CreateSession(env, w1, env.accounts[username].user).0);
        PassKeeps(env, w, env.wait(w.n));
        CreateSessionKeeps(env, w1, env.accounts[username].user);
      } else {
        PassKeeps(env, w, env.wait(w.n));
      }
    }
  }
}
