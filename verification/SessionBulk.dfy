/**
 Revoking all of a user's sessions through the per-user set (session_service.go:165-189), and the index over whole runs.
 */
module SessionBulk {
  import opened SessionStore
  import opened SessionLogic
  import opened SessionProperties
  import opened SessionExact
  import opened SessionIndex

  // ----- bulk revocation with failures and interference

  /** In the waits numbered from first up to last nobody else creates a session of the user. */
  ghost predicate OthersCreateNone(env: Env, user: User, first: nat, last: nat) {
    forall n: nat, k: nat :: first <= n < last && k < |env.others(n)| ==>
      !(env.others(n)[k].SetSession? && env.others(n)[k].session.user == user)
  }

  lemma {:induction false} InterferenceCreatesNone(w: World, commands: seq<Command>, user: User)
    requires Sound(w)
    requires forall k :: 0 <= k < |commands| ==> !(commands[k].SetSession? && commands[k].session.user == user)
    ensures TokensOf(Interfere(w, commands), user) == TokensOf(w, user)
  {
    if commands != [] {
      InterferenceCreatesNone(w, commands[..|commands| - 1], user);
      InterferenceKeepsSound(w, commands[..|commands| - 1]);
    }
  }

  lemma PassCreatesNone(env: Env, w: World, time: nat, user: User)
    requires Sound(w) && OthersCreateNone(env, user, w.n, w.n + 1)
    ensures TokensOf(Pass(env, w, time), user) == TokensOf(w, user)
  {
    var later := Later(w, time);
    LaterKeepsSound(w, time);
    forall k | 0 <= k < |env.others(w.n)|
      ensures !(env.others(w.n)[k].SetSession? && env.others(w.n)[k].session.user == user)
    {
      var k': nat := k;
      assert w.n <= w.n < w.n + 1 && k' < |env.others(w.n)|;
    }
    hide Sound;
    InterferenceCreatesNone(later, env.others(w.n), user);
    assert TokensOf(Pass(env, w, time), user) == TokensOf(Interfere(later, env.others(w.n)), user);
    assert TokensOf(later, user) == TokensOf(w, user);
  }

  lemma CommandCreatesNone(env: Env, w: World, command: Command, user: User)
    requires Sound(w) && OthersCreateNone(env, user, w.n, w.n + 1) && !command.SetSession?
    ensures TokensOf(Redis(env, w, command).0, user) == TokensOf(w, user)
    ensures TokensOf(Audit(env, w, command), user) == TokensOf(w, user)
  {
    hide Sound, OthersCreateNone, Pass;
    var w1 := Wait(env, w);
    PassCreatesNone(env, w, env.wait(w.n), user);
    assert TokensOf(Execute(w1, command), user) == TokensOf(w1, user);
  }

  lemma CleanUpCreatesNone(env: Env, w: World, token: Token, user: User)
    requires Sound(w) && Deletable(w, token) && OthersCreateNone(env, user, w.n, w.n + 2)
    ensures TokensOf(CleanUp(env, w, token), user) == TokensOf(w, user) && CleanUp(env, w, token).n == w.n + 2
  {
    var w1 := Redis(env, w, DelSession(token)).0;
    RedisKeepsSound(env, w, DelSession(token));
    hide Sound, Evolves, Redis, Audit, TokensOf;
    CommandCreatesNone(env, w, DelSession(token), user);
    CommandCreatesNone(env, w1, DeleteAudit(token), user);
  }

  ghost predicate AllIssued(w: World, tokens: seq<Token>) {
    forall token :: token in tokens ==> token in w.issued
  }

  lemma OneListedKeyGoes(env: Env, w: World, tokens: seq<Token>, user: User)
    requires Sound(w) && tokens != [] && AllDeletable(w, tokens) && OthersCreateNone(env, user, w.n, w.n + 2 * |tokens|)
    requires AllIssued(w, tokens)
    ensures var w1 := CleanUp(env, w, tokens[0]);
            && AllDeletable(w1, tokens[1..]) && AllIssued(w1, tokens[1..]) && tokens[0] in w1.issued
            && w1.n == w.n + 2 && TokensOf(w1, user) == TokensOf(w, user)
            && OthersCreateNone(env, user, w1.n, w1.n + 2 * |tokens[1..]|)
            && (env.redisOk(w.n) ==> tokens[0] !in w1.store.sessions)
  {
    var w1 := CleanUp(env, w, tokens[0]);
    AllStayDeletable(w, w1, tokens);
    assert forall token :: token in tokens ==> token in w1.issued;
    hide Sound, Evolves, CleanUp, TokensOf;
    CleanUpClears(env, w, tokens[0]);
    CleanUpCreatesNone(env, w, tokens[0], user);
  }

  /** The DEL of the k-th listed token has number n + 2 * k; where it succeeded the key is gone. */
  ghost predicate KeysGone(env: Env, n: nat, w: World, tokens: seq<Token>) {
    forall k :: 0 <= k < |tokens| && env.redisOk(n + 2 * k) ==> tokens[k] !in w.store.sessions
  }

  lemma OneMoreKeyGone(env: Env, n: nat, w: World, tokens: seq<Token>)
    requires tokens != [] && KeysGone(env, n + 2, w, tokens[1..]) && (env.redisOk(n) ==> tokens[0] !in w.store.sessions)
    ensures KeysGone(env, n, w, tokens)
  {
    forall k | 0 <= k < |tokens| && env.redisOk(n + 2 * k) ensures tokens[k] !in w.store.sessions {
      if k > 0 {
        assert tokens[k] == tokens[1..][k - 1] && n + 2 * k == n + 2 + 2 * (k - 1);
      }
    }
  }

  lemma GoneStaysGone(v: World, w: World, token: Token)
    requires Evolves(v, w) && token in v.issued
    ensures token !in v.store.sessions ==> token !in w.store.sessions
  {}

  lemma {:induction false} ListedKeysGo(env: Env, w: World, tokens: seq<Token>, user: User)
    requires Sound(w) && AllDeletable(w, tokens) && OthersCreateNone(env, user, w.n, w.n + 2 * |tokens|)
    requires AllIssued(w, tokens)
    ensures var w' := DeleteListed(env, w, tokens);
            && w'.n == w.n + 2 * |tokens| && TokensOf(w', user) == TokensOf(w, user) && KeysGone(env, w.n, w', tokens)
    decreases |tokens|
  {
    hide Sound, Evolves, TokensOf, CleanUp, AllIssued, OthersCreateNone;
    if tokens != [] {
      assert Deletable(w, tokens[0]);
      hide KeysGone, AllDeletable, Deletable;
      OneListedKeyGoes(env, w, tokens, user);
      var w1, rest := CleanUp(env, w, tokens[0]), tokens[1..];
      var w' := DeleteListed(env, w1, rest);
      GoneStaysGone(w1, w', tokens[0]);
      ListedKeysGo(env, w1, rest, user);
      assert w' == DeleteListed(env, w, tokens);
      hide DeleteListed;
      OneMoreKeyGone(env, w.n, w', tokens);
    }
  }

  lemma {:induction false} DeleteListedKeeps(env: Env, w: World, tokens: seq<Token>)
    requires Sound(w) && Kept(w) && AllDeletable(w, tokens) && DeleteListed(env, w, tokens).orderly
    ensures Kept(DeleteListed(env, w, tokens))
    decreases |tokens|
  {
    if tokens != [] {
      var w1 := CleanUp(env, w, tokens[0]);
      AllStayDeletable(w, w1, tokens);
      hide Sound, Kept, Evolves, CleanUp;
      OrderBefore(w1, DeleteListed(env, w1, tokens[1..]));
      CleanUpKeeps(env, w, tokens[0]);
      DeleteListedKeeps(env, w1, tokens[1..]);
    }
  }

  lemma ListTokensKeeps(env: Env, w: World, user: User)
    requires IsFair(env) && Sound(w) && Kept(w) && ListTokens(env, w, user).0.orderly
    ensures var (w1, tokens) := ListTokens(env, w, user);
            && Kept(w1) && w1.n == w.n + 1
            && (forall token :: token in tokens ==> token in w1.issued && w1.issued[token].user == user)
            && (env.redisOk(w.n) ==> forall token :: token in Members(w1.store, user) ==> token in tokens)
  {
    var waited := Wait(env, w);
    PassKeepsSound(env, w, env.wait(w.n));
    SoundKeys(waited);
    assert forall token :: token in Members(waited.store, user) ==>
             token in waited.issued && waited.issued[token].user == user;
    hide Sound, KeysSound, Pass, IndexComplete, Evolves;
    PassKeeps(env, w, env.wait(w.n));
    OtherCommandsAreSafe(waited, RevokeUser(user));
  }

  /**
   SMEMBERS lists every live session of the user, and no token of anyone else, with any orderly interference before.
   */
  lemma ListingIsComplete(env: Env, w: World, user: User)
    requires IsFair(env) && Sound(w) && Kept(w) && ListTokens(env, w, user).0.orderly
    ensures var (w1, tokens) := ListTokens(env, w, user);
            && (forall token :: token in tokens ==> token in w1.issued && w1.issued[token].user == user)
            && (env.redisOk(w.n) ==> forall token ::
                  token in w1.issued && w1.issued[token].user == user && IsLive(w1.store, token) ==> token in tokens)
  {
    hide Sound, IsFair, ListTokens, Evolves;
    ListTokensKeeps(env, w, user);
    var (w1, tokens) := ListTokens(env, w, user);
    assert forall token :: token in w1.issued && IsLive(w1.store, token) ==> IsIndexed(w1, token);
  }

  /** The number of the DEL of the user's set. */
  function SetDelNumber(env: Env, w: World, user: User): nat
    requires IsFair(env) && Sound(w)
  {
    w.n + 1 + 2 * |ListTokens(env, w, user).1|
  }

  /**
   The set's DEL succeeds only if SMEMBERS did, and the DEL of every listed key, and nobody has created a session of the
   user since.
   */
  ghost predicate BulkIsCareful(env: Env, w: World, user: User)
    requires IsFair(env) && Sound(w)
  {
    var tokens, last := ListTokens(env, w, user).1, SetDelNumber(env, w, user);
    env.redisOk(last) ==>
      && env.redisOk(w.n) && (forall k :: 0 <= k < |tokens| ==> env.redisOk(w.n + 1 + 2 * k))
      && OthersCreateNone(env, user, w.n + 1, last + 1)
  }

  /** Who is live later was live before and had an index entry; if all those keys are gone, nobody is live. */
  lemma NobodyIsLeft(w1: World, w2: World, w3: World, user: User)
    requires IndexComplete(w1) && Evolves(w1, w2) && Evolves(w2, w3)
    requires TokensOf(w3, user) == TokensOf(w1, user)
    requires forall token :: token in Members(w1.store, user) ==> token !in w2.store.sessions
    ensures forall token :: token in w3.issued && w3.issued[token].user == user ==> !IsLive(w3.store, token)
  {
    forall token | token in w3.issued && w3.issued[token].user == user ensures !IsLive(w3.store, token) {
      assert token in TokensOf(w3, user);
      assert token in w1.issued && token in w2.issued;
      assert IsLive(w3.store, token) ==> token in w2.store.sessions && IsLive(w1.store, token);
      assert IsLive(w1.store, token) ==> IsIndexed(w1, token);
    }
  }

  lemma NoneWithin(env: Env, user: User, first: nat, last: nat, to: nat)
    requires OthersCreateNone(env, user, first, last) && to <= last
    ensures OthersCreateNone(env, user, first, to)
  {}

  lemma AllKeysGone(env: Env, n: nat, w: World, tokens: seq<Token>)
    requires KeysGone(env, n, w, tokens) && forall k :: 0 <= k < |tokens| ==> env.redisOk(n + 2 * k)
    ensures forall token :: token in tokens ==> token !in w.store.sessions
  {
    forall token | token in tokens ensures token !in w.store.sessions {
      var k :| 0 <= k < |tokens| && tokens[k] == token;
    }
  }

  lemma ListedAreGone(env: Env, w: World, user: User)
    requires IsFair(env) && Sound(w) && Kept(w) && BulkIsCareful(env, w, user)
    requires env.redisOk(SetDelNumber(env, w, user))
    requires ListTokens(env, w, user).0.orderly
    ensures var (w1, tokens) := ListTokens(env, w, user);
            var w2 := DeleteListed(env, w1, tokens);
            && w2.n == SetDelNumber(env, w, user) && TokensOf(w2, user) == TokensOf(w1, user)
            && forall token :: token in Members(w1.store, user) ==> token !in w2.store.sessions
  {
    hide Sound, Kept, IsFair, ListTokens, DeleteListed, TokensOf, Evolves, Members, AllDeletable, OthersCreateNone,
      KeysGone;
    var (w1, tokens) := ListTokens(env, w, user);
    NoneWithin(env, user, w.n + 1, w1.n + 2 * |tokens| + 1, w1.n + 2 * |tokens|);
    ListTokensKeeps(env, w, user);
    assert AllIssued(w1, tokens);
    ListedKeysGo(env, w1, tokens, user);
    AllKeysGone(env, w1.n, DeleteListed(env, w1, tokens), tokens);
  }

  /** With such care no session of the user is live when the set is deleted. */
  lemma CarefulBulkLeavesNobody(env: Env, w: World, user: User)
    requires IsFair(env) && Sound(w) && Kept(w) && BulkIsCareful(env, w, user)
    requires env.redisOk(SetDelNumber(env, w, user))
    requires ListTokens(env, w, user).0.orderly
    ensures var (w1, tokens) := ListTokens(env, w, user);
            var before := Wait(env, DeleteListed(env, w1, tokens));
            forall token :: token in before.issued && before.issued[token].user == user ==> !IsLive(before.store, token)
  {
    var (w1, tokens) := ListTokens(env, w, user);
    ListTokensKeeps(env, w, user);
    var w2 := DeleteListed(env, w1, tokens);
    PassKeepsSound(env, w2, env.wait(w2.n));
    hide Sound, IsFair, Pass, ListTokens, DeleteListed, TokensOf, Evolves, Members, IndexComplete;
    ListedAreGone(env, w, user);
    PassCreatesNone(env, w2, env.wait(w2.n), user);
    NobodyIsLeft(w1, w2, Wait(env, w2), user);
  }

  lemma SetDeletionKeeps(env: Env, w: World, user: User)
    requires Sound(w) && Kept(w) && Redis(env, w, DelIndex(user)).0.orderly
    requires env.redisOk(w.n) ==>
               forall token :: token in Wait(env, w).issued && Wait(env, w).issued[token].user == user ==>
                 !IsLive(Wait(env, w).store, token)
    ensures Kept(Redis(env, w, DelIndex(user)).0)
  {
    hide Sound, IndexComplete, Pass;
    PassKeeps(env, w, env.wait(w.n));
    DeletingTheSetIsSafeExactlyIf(Wait(env, w), user);
  }

  lemma LastStatementsKeep(env: Env, w: World, user: User)
    requires Sound(w) && (w.orderly ==> Kept(w))
    requires env.redisOk(w.n) && w.orderly ==>
               forall token :: token in Wait(env, w).issued && Wait(env, w).issued[token].user == user ==>
                 !IsLive(Wait(env, w).store, token)
    ensures var w' := Audit(env, Redis(env, w, DelIndex(user)).0, DeleteUserAudit(user));
            w'.orderly ==> Kept(w') && w.orderly
  {
    var w3 := Redis(env, w, DelIndex(user)).0;
    RedisKeepsSound(env, w, DelIndex(user));
    AuditKeepsSound(env, w3, DeleteUserAudit(user));
    hide Sound, Kept, Evolves, Redis, Audit, Pass;
    OrderBefore(w, w3);
    OrderBefore(w3, Audit(env, w3, DeleteUserAudit(user)));
    if Audit(env, w3, DeleteUserAudit(user)).orderly {
      SetDeletionKeeps(env, w, user);
      AuditKeeps(env, w3, DeleteUserAudit(user));
    }
  }

  lemma DeleteUserSessionsKeeps(env: Env, w: World, user: User)
    requires IsFair(env) && Sound(w) && Kept(w) && BulkIsCareful(env, w, user)
    requires DeleteUserSessions(env, w, user).orderly
    ensures Kept(DeleteUserSessions(env, w, user))
  {
    hide Sound, Kept, Evolves, IsFair, ListTokens, DeleteListed, Redis, Audit, BulkIsCareful, Wait, IsLive,
      AllDeletable;
    var (w1, tokens) := ListTokens(env, w, user);
    var w2 := DeleteListed(env, w1, tokens);
    OrderBefore(w1, w2);
    if w2.orderly {
      ListTokensKeeps(env, w, user);
      DeleteListedKeeps(env, w1, tokens);
      if env.redisOk(w2.n) {
        CarefulBulkLeavesNobody(env, w, user);
      }
    }
    LastStatementsKeep(env, w2, user);
  }

  // ----- bulk revocation, exactly, when nobody interferes

  /** Some DEL of the token succeeds: that of the k-th listed token has number n + 2 * k. */
  ghost predicate DeletedBy(env: Env, n: nat, tokens: seq<Token>, token: Token) {
    exists k :: 0 <= k < |tokens| && tokens[k] == token && env.redisOk(n + 2 * k)
  }

  lemma DeletedByOneMore(env: Env, n: nat, tokens: seq<Token>, token: Token)
    requires tokens != []
    ensures DeletedBy(env, n, tokens, token) <==>
            (tokens[0] == token && env.redisOk(n)) || DeletedBy(env, n + 2, tokens[1..], token)
  {
    if DeletedBy(env, n + 2, tokens[1..], token) {
      var k :| 0 <= k < |tokens[1..]| && tokens[1..][k] == token && env.redisOk(n + 2 + 2 * k);
      assert tokens[k + 1] == token && env.redisOk(n + 2 * (k + 1));
    }
    if DeletedBy(env, n, tokens, token) {
      var k :| 0 <= k < |tokens| && tokens[k] == token && env.redisOk(n + 2 * k);
      if k > 0 {
        assert tokens[1..][k - 1] == token && env.redisOk(n + 2 + 2 * (k - 1));
      }
    }
  }

  /** Of v's rows, w has lost at most those of the given tokens. */
  ghost predicate RowsLoseOnly(v: map<Token, Session>, w: map<Token, Session>, tokens: seq<Token>) {
    && (forall token :: token in w ==> token in v && w[token] == v[token])
    && (forall token :: token in v && token !in tokens ==> token in w)
  }

  /**
   From v to w time has passed, exactly the keys whose DEL succeeded are gone, and at most the listed tokens' rows.
   */
  ghost predicate DeletesListed(env: Env, v: World, w: World, tokens: seq<Token>) {
    && v.store.now <= w.store.now && w.issued == v.issued && w.store.index == v.store.index
    && (forall token :: token in w.store.sessions <==>
          token in v.store.sessions && !DeletedBy(env, v.n, tokens, token))
    && (forall token :: token in w.store.sessions ==> w.store.sessions[token] == v.store.sessions[token])
    && RowsLoseOnly(v.store.audit, w.store.audit, tokens)
  }

  lemma CleanUpDeletes(env: Env, w: World, token: Token)
    requires Sound(w) && Deletable(w, token) && Quiet(env, w.n, w.n + 2)
    ensures var w' := CleanUp(env, w, token);
            && w.store.now <= w'.store.now && w'.issued == w.issued && w'.store.index == w.store.index
            && w'.store.sessions == (if env.redisOk(w.n) then w.store.sessions - {token} else w.store.sessions)
            && w'.store.audit == if env.auditOk(w.n + 1) then w.store.audit - {token} else w.store.audit
  {
    hide Sound, Evolves;
    QuietPass(env, w, env.wait(w.n));
    var w1 := Redis(env, w, DelSession(token)).0;
    QuietPass(env, w1, env.wait(w1.n));
  }

  lemma DeletingOneMore(env: Env, u: World, v: World, w: World, tokens: seq<Token>)
    requires tokens != [] && v.n == u.n + 2 && DeletesListed(env, v, w, tokens[1..])
    requires u.store.now <= v.store.now && v.issued == u.issued && v.store.index == u.store.index
    requires v.store.sessions == if env.redisOk(u.n) then u.store.sessions - {tokens[0]} else u.store.sessions
    requires v.store.audit == u.store.audit || v.store.audit == u.store.audit - {tokens[0]}
    ensures DeletesListed(env, u, w, tokens)
  {
    forall token
      ensures DeletedBy(env, u.n, tokens, token) <==>
              (tokens[0] == token && env.redisOk(u.n)) || DeletedBy(env, v.n, tokens[1..], token)
    {
      DeletedByOneMore(env, u.n, tokens, token);
    }
    assert forall token :: token in tokens <==> token == tokens[0] || token in tokens[1..];
    hide DeletedBy;
  }

  lemma {:induction false} DeleteListedDeletes(env: Env, w: World, tokens: seq<Token>)
    requires Sound(w) && AllDeletable(w, tokens) && Quiet(env, w.n, w.n + 2 * |tokens|)
    ensures DeletesListed(env, w, DeleteListed(env, w, tokens), tokens)
    decreases |tokens|
  {
    if tokens != [] {
      var w1 := CleanUp(env, w, tokens[0]);
      AllStayDeletable(w, w1, tokens);
      CleanUpDeletes(env, w, tokens[0]);
      hide Evolves, DeletesListed, CleanUp;
      DeleteListedDeletes(env, w1, tokens[1..]);
      hide Sound;
      DeletingOneMore(env, w, w1, DeleteListed(env, w1, tokens[1..]), tokens);
    }
  }

  lemma ListingInQuiet(env: Env, w: World, user: User)
    requires IsFair(env) && Sound(w) && Quiet(env, w.n, w.n + 1)
    ensures var (w1, tokens) := ListTokens(env, w, user);
            && w1.issued == w.issued && w1.store == Later(w, env.wait(w.n)).store
            && (forall token :: token in tokens ==> token in w.issued && w.issued[token].user == user)
            && (IndexComplete(w) && env.redisOk(w.n) ==> forall token ::
                  token in w.issued && w.issued[token].user == user && IsLive(w1.store, token) ==> token in tokens)
  {
    QuietPass(env, w, env.wait(w.n));
    var later := Later(w, env.wait(w.n));
    assert IndexSound(later);
    if IndexComplete(w) {
      LaterKeepsIndexComplete(w, env.wait(w.n));
      assert forall token :: token in later.issued && IsLive(later.store, token) ==> IsIndexed(later, token);
    }
  }

  function RowsNotOf(audit: map<Token, Session>, user: User): map<Token, Session> {
    map token | token in audit && audit[token].user != user :: audit[token]
  }

  lemma LastTwoStatements(env: Env, w: World, user: User)
    requires Quiet(env, w.n, w.n + 2)
    ensures var w' := Audit(env, Redis(env, w, DelIndex(user)).0, DeleteUserAudit(user));
            && w.store.now <= w'.store.now && w'.issued == w.issued && w'.store.sessions == w.store.sessions
            && w'.store.index == (if env.redisOk(w.n) then w.store.index - {user} else w.store.index)
            && w'.store.audit == if env.auditOk(w.n + 1) then RowsNotOf(w.store.audit, user) else w.store.audit
  {
    QuietPass(env, w, env.wait(w.n));
    var w1 := Redis(env, w, DelIndex(user)).0;
    QuietPass(env, w1, env.wait(w1.n));
  }

  /** Nothing of other users has changed. */
  ghost predicate OthersUntouched(v: World, w: World, user: User) {
    && w.issued == v.issued
    && w.store.index - {user} == v.store.index - {user}
    && (forall token :: token in v.issued && v.issued[token].user != user ==>
          && (token in w.store.sessions <==> token in v.store.sessions)
          && (token in w.store.sessions ==> w.store.sessions[token] == v.store.sessions[token])
          && (token in w.store.audit <==> token in v.store.audit)
          && (token in w.store.audit ==> w.store.audit[token] == v.store.audit[token]))
  }

  /**
   What a bulk revocation leaves: of the user's keys those of which no DEL succeeded, the set if its DEL failed, no row
   if statement number row succeeded; and of other users everything.
   */
  ghost predicate LeavesExactly(env: Env, v: World, w: World, user: User, tokens: seq<Token>, del: nat, row: nat) {
    && v.store.now <= w.store.now && OthersUntouched(v, w, user)
    && (forall token :: token in w.store.sessions <==>
          token in v.store.sessions && !DeletedBy(env, v.n + 1, tokens, token))
    && (forall token :: token in w.store.sessions ==> w.store.sessions[token] == v.store.sessions[token])
    && w.store.index == (if env.redisOk(del) then v.store.index - {user} else v.store.index)
    && (env.auditOk(row) ==> forall token :: token in w.store.audit ==> w.store.audit[token].user != user)
  }

  lemma DeletingTheRest(env: Env, v: World, v1: World, v2: World, w: World, user: User, tokens: seq<Token>,
                        del: nat, row: nat)
    requires Sound(v) && v1.n == v.n + 1 && v1.issued == v.issued && v.store.now <= v1.store.now
    requires v1.store.sessions == v.store.sessions && v1.store.index == v.store.index && v1.store.audit == v.store.audit
    requires DeletesListed(env, v1, v2, tokens)
    requires forall token :: token in tokens ==> token in v.issued && v.issued[token].user == user
    requires v2.store.now <= w.store.now && w.issued == v2.issued && w.store.sessions == v2.store.sessions
    requires w.store.index == if env.redisOk(del) then v2.store.index - {user} else v2.store.index
    requires w.store.audit == if env.auditOk(row) then RowsNotOf(v2.store.audit, user) else v2.store.audit
    ensures LeavesExactly(env, v, w, user, tokens, del, row)
  {
    assert forall token :: DeletedBy(env, v1.n, tokens, token) ==> token in tokens;
    hide DeletedBy;
    assert KeysSound(v) && AuditSound(v);
    hide Sound, KeysSound;
  }

  /** Bulk revocation touches nothing of other users, and of this one exactly what its own commands reach. */
  lemma BulkRevocationLeavesExactly(env: Env, w: World, user: User)
    requires IsFair(env) && Sound(w) && Quiet(env, w.n, DeleteUserSessions(env, w, user).n)
    ensures LeavesExactly(env, w, DeleteUserSessions(env, w, user), user, ListTokens(env, w, user).1,
                          SetDelNumber(env, w, user), SetDelNumber(env, w, user) + 1)
  {
    hide Sound, Evolves, IsFair, ListTokens, DeleteListed, Redis, Audit, IndexComplete, DeletesListed, LeavesExactly;
    var (w1, tokens) := ListTokens(env, w, user);
    var w2 := DeleteListed(env, w1, tokens);
    assert DeleteUserSessions(env, w, user) == Audit(env, Redis(env, w2, DelIndex(user)).0, DeleteUserAudit(user));
    hide DeleteUserSessions;
    ListingInQuiet(env, w, user);
    DeleteListedDeletes(env, w1, tokens);
    LastTwoStatements(env, w2, user);
    DeletingTheRest(env, w, w1, w2, DeleteUserSessions(env, w, user), user, tokens, w2.n, w2.n + 1);
  }

  /** No session that Redis would still return, no index set and, if statement number row succeeded, no audit row. */
  ghost predicate NothingLeft(env: Env, w: World, user: User, row: nat) {
    && (forall token :: token in w.issued && w.issued[token].user == user ==> !IsLive(w.store, token))
    && user !in w.store.index
    && (env.auditOk(row) ==> forall token :: token in w.store.audit ==> w.store.audit[token].user != user)
  }

  lemma NothingIsLeft(env: Env, v: World, w: World, user: User, tokens: seq<Token>, del: nat, row: nat)
    requires LeavesExactly(env, v, w, user, tokens, del, row) && env.redisOk(del)
    requires forall k :: 0 <= k < |tokens| ==> env.redisOk(v.n + 1 + 2 * k)
    requires forall token :: token in v.issued && v.issued[token].user == user && token in v.store.sessions ==>
               (w.store.now < v.store.sessions[token].deadline ==> token in tokens)
    ensures NothingLeft(env, w, user, row) && OthersUntouched(v, w, user)
  {
    assert w.issued == v.issued;
    hide OthersUntouched;
    forall token | token in tokens ensures DeletedBy(env, v.n + 1, tokens, token) {
      var k :| 0 <= k < |tokens| && tokens[k] == token;
    }
  }

  /** All Redis commands of the bulk revocation succeed. */
  ghost predicate BulkSucceeds(env: Env, w: World, user: User)
    requires IsFair(env) && Sound(w)
  {
    && env.redisOk(w.n) && env.redisOk(SetDelNumber(env, w, user))
    && forall k :: 0 <= k < |ListTokens(env, w, user).1| ==> env.redisOk(w.n + 1 + 2 * k)
  }

  lemma ListingComesFirst(env: Env, w: World, user: User)
    requires IsFair(env) && Sound(w)
    ensures ListTokens(env, w, user).0.store.now <= DeleteUserSessions(env, w, user).store.now
  {
    var (w1, tokens) := ListTokens(env, w, user);
    var w2 := DeleteListed(env, w1, tokens);
    var w3 := Redis(env, w2, DelIndex(user)).0;
    RedisKeepsSound(env, w2, DelIndex(user));
    AuditKeepsSound(env, w3, DeleteUserAudit(user));
    hide Sound, IsFair, ListTokens, DeleteListed, Redis, Audit, KeysOnlyGo;
  }

  /**
   Revoking all of a user's sessions misses none if its own SMEMBERS and DELs succeed: afterwards no live session, index
   set or audit row of the user is left, and nothing of any other user has changed.
   */
  lemma BulkRevocationMissesNone(env: Env, w: World, user: User)
    requires IsFair(env) && Sound(w) && IndexComplete(w) && BulkSucceeds(env, w, user)
    requires Quiet(env, w.n, DeleteUserSessions(env, w, user).n)
    ensures NothingLeft(env, DeleteUserSessions(env, w, user), user, SetDelNumber(env, w, user) + 1)
    ensures OthersUntouched(w, DeleteUserSessions(env, w, user), user)
  {
    hide Sound, Evolves, IsFair, ListTokens, DeleteUserSessions, IndexComplete, LeavesExactly, NothingLeft,
      OthersUntouched;
    var (w1, tokens) := ListTokens(env, w, user);
    var w' := DeleteUserSessions(env, w, user);
    ListingInQuiet(env, w, user);
    BulkRevocationLeavesExactly(env, w, user);
    ListingComesFirst(env, w, user);
    NothingIsLeft(env, w, w', user, tokens, SetDelNumber(env, w, user), SetDelNumber(env, w, user) + 1);
  }

  /** A session of which no DEL succeeds stays live, and if the set is deleted all the same, out of the index. */
  lemma SurvivorsAreUnindexed(env: Env, w: World, user: User, token: Token)
    requires IsFair(env) && Sound(w) && Quiet(env, w.n, DeleteUserSessions(env, w, user).n)
    requires env.redisOk(SetDelNumber(env, w, user)) && !DeletedBy(env, w.n + 1, ListTokens(env, w, user).1, token)
    requires token in w.issued && w.issued[token].user == user && token in w.store.sessions
    ensures var w' := DeleteUserSessions(env, w, user);
            && token in w'.issued && token in w'.store.sessions && !IsIndexed(w', token)
            && (w'.store.now < w.store.sessions[token].deadline ==> IsLive(w'.store, token))
  {
    hide Sound, Evolves, IsFair, ListTokens, DeleteUserSessions;
    BulkRevocationLeavesExactly(env, w, user);
  }

  // ----- whole runs

  /**
   What the index needs of a request: a creation's Redis commands succeed in one instant, an SREM follows a successful
   DEL, and the DEL of a set a successful SMEMBERS and the DEL of every listed key. Everything else may fail.
   */
  ghost predicate IsCareful(env: Env, w: World, request: Request)
    requires IsFair(env) && Sound(w)
  {
    match request
    case Login(_, _) => CreationIsInstant(env, Wait(env, w))
    case Validate(_) => true
    case Logout(token) => DeletionIsCareful(env, Mark(w, Revoke(token)), token)
    case Refresh(token) => RefreshIsCareful(env, ValidateToken(env, w, token).0, token)
    case LogoutEverywhere(user) => BulkIsCareful(env, w, user)
  }

  ghost predicate IsCarefulRun(env: Env, w: World, requests: seq<Request>)
    requires IsFair(env) && Sound(w)
  {
    requests == [] ||
    (var before := requests[..|requests| - 1];
     IsCarefulRun(env, w, before) && IsCareful(env, Run(env, w, before), requests[|requests| - 1]))
  }

  lemma ServingKeeps(env: Env, w: World, request: Request)
    requires IsFair(env) && Sound(w) && Kept(w) && IsCareful(env, w, request) && Serve(env, w, request).0.orderly
    ensures Kept(Serve(env, w, request).0)
  {
    hide Sound, Kept, IsFair, Evolves, ServeLogin, ValidateToken, DeleteSession, RefreshSession, DeleteUserSessions,
      CreationIsInstant, DeletionIsCareful, RefreshIsCareful, BulkIsCareful, Pass;
    match request
    case Login(username, password) => LoginKeeps(env, w, username, password);
    case Validate(token) => ValidateKeeps(env, w, token);
    case Logout(token) =>
      if token != "" {
        MarkKeeps(w, token);
        DeleteSessionKeeps(env, Mark(w, Revoke(token)), token);
      }
    case Refresh(token) =>
      var (w1, reply) := ValidateToken(env, w, token);
      if reply.Valid? {
        OrderBefore(w1, RefreshSession(env, w1, token).0);
      }
      ValidateKeeps(env, w, token);
      if reply.Valid? {
        RefreshKeeps(env, w1, token);
      }
    case LogoutEverywhere(user) => DeleteUserSessionsKeeps(env, w, user);
  }

  /**
   In every state that such requests reach, with any waits, any other failures and any orderly interference, each live
   session's token is in its user's set, the set lasts no shorter than the session, and every token in a set was issued
   to that user.
   */
  lemma {:induction false} IndexStaysComplete(env: Env, w: World, requests: seq<Request>)
    requires IsFair(env) && Sound(w) && IndexComplete(w) && w.ttl > 0 && IsCarefulRun(env, w, requests)
    ensures var w' := Run(env, w, requests); (w'.orderly ==> IndexComplete(w')) && IndexSound(w')
  {
    if requests != [] {
      var rest, last := requests[..|requests| - 1], requests[|requests| - 1];
      var before := Run(env, w, rest);
      var after := Serve(env, before, last).0;
      assert before.ttl > 0 && (after.orderly ==> before.orderly);
      IndexStaysComplete(env, w, rest);
      if after.orderly {
        ServingKeeps(env, before, last);
      }
    }
  }
}
