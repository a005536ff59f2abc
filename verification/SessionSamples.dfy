/**
 Runs of the session service in which a live session gets out of its user's set: one small world each, in which exactly
 the named command fails, is late, or is overtaken. (session_service.go:69-78, 123-133 and 167-181)
 */
module SessionSamples {
  import opened Options
  import opened SessionStore
  import opened SessionLogic
  import opened SessionExact
  import opened SessionIndex
  import opened SessionBulk

  // ----- an outside

  ghost function LongerThanAll(used: set<Token>): (n: nat)
    ensures forall token :: token in used ==> |token| < n
    decreases used
  {
    if used == {} then 1
    else
      var token :| token in used;
      var rest := LongerThanAll(used - {token});
      if rest > |token| then rest else |token| + 1
  }

  ghost function FreshToken(used: set<Token>): (token: Token)
    ensures token !in used && token != ""
  {
    var n := LongerThanAll(used);
    assert n > 0 by {
      if used != {} {
        var other :| other in used;
        assert |other| < n;
      }
    }
    seq(if n > 0 then n else 1, _ => 'x')
  }

  ghost function Listing(members: set<Token>): (tokens: seq<Token>)
    ensures forall token :: token in tokens <==> token in members
    decreases members
  {
    if members == {} then []
    else
      var token :| token in members;
      [token] + Listing(members - {token})
  }

  /** No waiting, except before command number slow; command number lost fails; others run in the wait number busy. */
  ghost function Sample(lost: int, slow: int, time: nat, busy: int, commands: seq<Command>): (env: Env)
    ensures IsFair(env)
  {
    Env(map[], (_, _) => false, _ => 0, (n: nat) => if n == slow then time else 0,
        (n: nat) => n != lost, _ => true, _ => true,
        (_, used) => FreshToken(used), (_, members) => Listing(members),
        (n: nat) => if n == busy then commands else [])
  }

  /** One user with one session, stored and indexed at instant 0, as a login would have left them. */
  function One(now: int): (w: World)
    requires 0 <= now < 10
    ensures Sound(w) && IndexComplete(w)
  {
    var session := Session("user", 10);
    World(Store(now, map["token" := Entry(session, 10)], map["user" := Index({"token"}, Some(10))], map[]),
          10, 0, map["token" := session], {}, true)
  }

  lemma FoundAtOnce(env: Env, w: World, token: Token)
    requires Sound(w) && token in w.store.sessions && env.redisOk(w.n)
    requires env.others(w.n) == env.others(w.n + 1) == [] && env.wait(w.n) == env.wait(w.n + 1) == 0
    requires w.store.now + 1 < w.store.sessions[token].deadline
    requires w.store.now + 1 <= w.store.sessions[token].session.expiresAt
    ensures var (w', found) := GetSession(env, w, token);
            w' == Later(Later(w, 1), 0) && found == Some(w.store.sessions[token].session)
  {
    hide Sound, KeysOnlyGo;
    QuietPass(env, w, 1);
    QuietPass(env, Later(w, 1), 0);
  }

  lemma FailedAtOnce(env: Env, w: World, command: Command)
    requires env.others(w.n) == [] && env.wait(w.n) == 0 && !env.redisOk(w.n)
    ensures Redis(env, w, command).0 == Later(w, 0)
  {
    QuietPass(env, w, 0);
  }

  lemma DoneAtOnce(env: Env, w: World, command: Command)
    requires env.others(w.n) == [] && env.wait(w.n) == 0
    ensures env.redisOk(w.n) ==> Redis(env, w, command).0 == Execute(Later(w, 0), command)
    ensures env.auditOk(w.n) ==> Audit(env, w, command) == Execute(Later(w, 0), command)
  {
    QuietPass(env, w, 0);
  }

  /** Nobody runs in the waits first to last, and nothing waits. */
  ghost predicate IsStill(env: Env, first: nat, last: nat) {
    forall n: nat :: first <= n <= last ==> env.others(n) == [] && env.wait(n) == 0
  }

  lemma StillAt(env: Env, first: nat, last: nat, n: nat)
    requires IsStill(env, first, last) && first <= n <= last
    ensures env.others(n) == [] && env.wait(n) == 0
  {}

  /** DEL fails, SREM succeeds. */
  lemma DeleteFoundWithFailedDel(env: Env, w: World, token: Token, user: User)
    requires Sound(w) && Deletable(w, token) && IsStill(env, w.n, w.n + 1) && !env.redisOk(w.n) && env.redisOk(w.n + 1)
    ensures DeleteFound(env, w, token, user) ==
            Audit(env, Execute(Later(Later(w, 0), 0), RemoveMember(user, token)), DeleteAudit(token))
  {
    hide Sound, Evolves, Redis, Audit, IsStill, Execute;
    StillAt(env, w.n, w.n + 1, w.n);
    StillAt(env, w.n, w.n + 1, w.n + 1);
    FailedAtOnce(env, w, DelSession(token));
    DoneAtOnce(env, Later(w, 0), RemoveMember(user, token));
    hide Later;
  }

  lemma DeletionFinds(env: Env, w: World, token: Token)
    requires Sound(w) && Deletable(w, token) && GetSession(env, w, token).1.Some?
    ensures var (w1, found) := GetSession(env, w, token);
            Sound(w1) && Deletable(w1, token)
            && DeleteSession(env, w, token) == DeleteFound(env, w1, token, found.value.user)
  {
    PermissionStays(w, GetSession(env, w, token).0, DelSession(token));
    hide Sound, Evolves, GetSession;
  }

  lemma RemovedIsUnindexed(w: World, user: User, token: Token)
    requires token in w.issued && w.issued[token].user == user && IsLive(w.store, token)
    ensures var w' := Execute(w, RemoveMember(user, token)); IsLive(w'.store, token) && !IsIndexed(w', token)
  {}

  lemma RowsDoNotMatter(env: Env, w: World, command: Command, token: Token)
    requires env.others(w.n) == [] && env.wait(w.n) == 0
    requires (command.DeleteAudit? || command.UpsertAudit? || command.DeleteUserAudit?)
    requires token in w.issued && IsLive(w.store, token) && !IsIndexed(w, token)
    ensures var w' := Audit(env, w, command);
            token in w'.issued && IsLive(w'.store, token) && !IsIndexed(w', token)
  {
    QuietPass(env, w, 0);
  }

  lemma FoundThenFailedDel(env: Env, w: World, token: Token, w1: World, session: Session)
    requires Sound(w) && Deletable(w, token) && GetSession(env, w, token) == (w1, Some(session))
    requires IsStill(env, w1.n, w1.n + 1) && !env.redisOk(w1.n) && env.redisOk(w1.n + 1)
    ensures DeleteSession(env, w, token) ==
            Audit(env, Execute(Later(Later(w1, 0), 0), RemoveMember(session.user, token)), DeleteAudit(token))
  {
    hide Sound, Evolves, GetSession, DeleteSession, DeleteFound, Audit, Redis, Execute, IsStill, Deletable, Later;
    DeletionFinds(env, w, token);
    DeleteFoundWithFailedDel(env, w1, token, session.user);
  }

  lemma StillWithin(env: Env, first: nat, last: nat, from: nat, to: nat)
    requires IsStill(env, first, last) && first <= from && to <= last
    ensures IsStill(env, from, to)
  {}

  /**
   A logout whose DEL fails and whose SREM succeeds (with nobody interfering) answers as usual, and leaves the session
   live and out of its user's set.
   */
  lemma LogoutWithFailedDel(env: Env, w: World, token: Token)
    requires Sound(w) && token in w.issued && token in w.store.sessions && token != ""
    requires IsStill(env, w.n, w.n + 4) && env.redisOk(w.n) && !env.redisOk(w.n + 2) && env.redisOk(w.n + 3)
    requires w.store.now + 1 < w.store.sessions[token].deadline && w.store.now + 1 <= w.issued[token].expiresAt
    ensures var (w', reply) := ServeLogout(env, w, token);
            reply == LoggedOut && token in w'.issued && IsLive(w'.store, token) && !IsIndexed(w', token)
  {
    hide Evolves, GetSession, DeleteSession, Audit, Redis, IsStill, IsIndexed;
    var marked := Mark(w, Revoke(token));
    assert w.store.sessions[token].session == w.issued[token] && marked == w.(revoked := w.revoked + {token});
    StillWithin(env, w.n, w.n + 4, w.n, w.n + 1);
    StillWithin(env, w.n, w.n + 4, w.n + 2, w.n + 3);
    StillAt(env, w.n, w.n + 4, w.n + 4);
    StillAt(env, w.n, w.n + 4, w.n);
    StillAt(env, w.n, w.n + 4, w.n + 1);
    FoundAtOnce(env, marked, token);
    var w1 := Later(Later(marked, 1), 0);
    assert w1.n == w.n + 2;
    hide Sound, Mark;
    FoundThenFailedDel(env, marked, token, w1, w.issued[token]);
    var w2, user := Later(Later(w1, 0), 0), w.issued[token].user;
    RemovedIsUnindexed(w2, user, token);
    var w3 := Execute(w2, RemoveMember(user, token));
    assert w3.n == w.n + 4 && token in w3.issued;
    hide Execute;
    RowsDoNotMatter(env, w3, DeleteAudit(token), token);
  }

  lemma FailedDelLeavesUnindexed()
    ensures var (w', reply) := ServeLogout(Sample(2, -1, 0, -1, []), One(0), "token");
            reply == LoggedOut && "token" in w'.issued && IsLive(w'.store, "token") && !IsIndexed(w', "token")
  {
    var env, w := Sample(2, -1, 0, -1, []), One(0);
    assert IsStill(env, 0, 4) && env.redisOk(0) && !env.redisOk(2) && env.redisOk(3);
    hide Sample, Sound, IsStill, IndexComplete;
    LogoutWithFailedDel(env, w, "token");
  }

  // ----- bulk revocation

  /** Whatever the reason: if a session of the user is live when the set is deleted, it ends up out of the index. */
  lemma DeletedUnderALiveSession(env: Env, w: World, user: User, token: Token)
    requires IsFair(env) && Sound(w)
    requires var (w1, tokens) := ListTokens(env, w, user);
             var w2 := DeleteListed(env, w1, tokens);
             && env.redisOk(w2.n) && env.others(w2.n + 1) == [] && env.wait(w2.n + 1) == 0
             && token in Wait(env, w2).issued && Wait(env, w2).issued[token].user == user
             && IsLive(Wait(env, w2).store, token)
    ensures var w' := DeleteUserSessions(env, w, user);
            token in w'.issued && IsLive(w'.store, token) && !IsIndexed(w', token)
  {
    hide Sound, Evolves, IsFair, ListTokens, DeleteListed, Audit, Pass;
    var (w1, tokens) := ListTokens(env, w, user);
    var w2 := DeleteListed(env, w1, tokens);
    var w3 := Execute(Wait(env, w2), DelIndex(user));
    assert IsLive(w3.store, token) && !IsIndexed(w3, token);
    RowsDoNotMatter(env, w3, DeleteUserAudit(user), token);
    assert DeleteUserSessions(env, w, user) == Audit(env, w3, DeleteUserAudit(user));
  }

  /** A bulk revocation whose SMEMBERS fails still deletes the set: every session of the user stays live, unindexed. */
  lemma BulkWithFailedListing(env: Env, w: World, user: User, token: Token)
    requires IsFair(env) && Sound(w) && Quiet(env, w.n, DeleteUserSessions(env, w, user).n)
    requires !env.redisOk(w.n) && env.redisOk(w.n + 1)
    requires token in w.issued && w.issued[token].user == user && token in w.store.sessions
    ensures var w' := DeleteUserSessions(env, w, user);
            && token in w'.issued && token in w'.store.sessions && !IsIndexed(w', token)
            && (w'.store.now < w.store.sessions[token].deadline ==> IsLive(w'.store, token))
  {
    hide Sound, Evolves, IsFair, DeleteUserSessions, IsIndexed, Quiet, Pass;
    assert ListTokens(env, w, user).1 == [];
    hide ListTokens;
    SurvivorsAreUnindexed(env, w, user, token);
  }

  lemma CleanUpTakesNoTime(env: Env, w: World, token: Token)
    requires Sound(w) && Deletable(w, token) && IsStill(env, w.n, w.n + 2)
    ensures CleanUp(env, w, token).store.now == w.store.now
  {
    hide Sound, Evolves;
    QuietPass(env, w, 0);
    QuietPass(env, Redis(env, w, DelSession(token)).0, 0);
  }

  lemma {:induction false} DeletingTakesNoTime(env: Env, w: World, tokens: seq<Token>)
    requires Sound(w) && AllDeletable(w, tokens) && IsStill(env, w.n, w.n + 2 * |tokens|)
    ensures DeleteListed(env, w, tokens).store.now == w.store.now
    decreases |tokens|
  {
    if tokens != [] {
      var w1 := CleanUp(env, w, tokens[0]);
      AllStayDeletable(w, w1, tokens);
      hide Sound, Evolves, CleanUp;
      CleanUpTakesNoTime(env, w, tokens[0]);
      DeletingTakesNoTime(env, w1, tokens[1..]);
    }
  }

  lemma BulkTakesNoTime(env: Env, w: World, user: User)
    requires IsFair(env) && Sound(w) && IsStill(env, w.n, DeleteUserSessions(env, w, user).n)
    ensures DeleteUserSessions(env, w, user).store.now == w.store.now
  {
    var (w1, tokens) := ListTokens(env, w, user);
    QuietPass(env, w, 0);
    var w2 := DeleteListed(env, w1, tokens);
    assert DeleteUserSessions(env, w, user) == Audit(env, Redis(env, w2, DelIndex(user)).0, DeleteUserAudit(user));
    hide Sound, Evolves, IsFair, ListTokens, DeleteListed, DeleteUserSessions;
    DeletingTakesNoTime(env, w1, tokens);
    QuietPass(env, w2, 0);
    QuietPass(env, Redis(env, w2, DelIndex(user)).0, 0);
  }

  /** One command is lost, and nobody else runs and nothing waits. */
  lemma NothingElseHappens(lost: nat, last: nat)
    ensures var env := Sample(lost, -1, 0, -1, []);
            && IsStill(env, 0, last) && Quiet(env, 0, last)
            && !env.redisOk(lost) && env.redisOk(lost + 1) && env.redisOk(lost + 2)
  {}

  lemma FailedListingLeavesUnindexed()
    ensures var w' := DeleteUserSessions(Sample(0, -1, 0, -1, []), One(0), "user");
            "token" in w'.issued && IsLive(w'.store, "token") && !IsIndexed(w', "token")
  {
    var env, w := Sample(0, -1, 0, -1, []), One(0);
    hide Sample, Sound, IsStill, Quiet, IndexComplete, IsFair, DeleteUserSessions;
    NothingElseHappens(0, DeleteUserSessions(env, w, "user").n);
    BulkWithFailedListing(env, w, "user", "token");
    BulkTakesNoTime(env, w, "user");
  }

  /** The same if the DEL of the one listed key fails. */
  lemma BulkWithFailedDel(env: Env, w: World, user: User, token: Token)
    requires IsFair(env) && Sound(w) && Quiet(env, w.n, DeleteUserSessions(env, w, user).n)
    requires ListTokens(env, w, user).1 == [token] && !env.redisOk(w.n + 1) && env.redisOk(w.n + 3)
    requires token in w.issued && w.issued[token].user == user && token in w.store.sessions
    ensures var w' := DeleteUserSessions(env, w, user);
            && token in w'.issued && token in w'.store.sessions && !IsIndexed(w', token)
            && (w'.store.now < w.store.sessions[token].deadline ==> IsLive(w'.store, token))
  {
    hide Sound, Evolves, IsFair, DeleteUserSessions, ListTokens, Quiet;
    SurvivorsAreUnindexed(env, w, user, token);
  }

  lemma ListingOfOne(token: Token)
    ensures Listing({token}) == [token]
  {
    assert {token} - {token} == {};
  }

  lemma OneIsListed(env: Env)
    requires env == Sample(1, -1, 0, -1, [])
    ensures ListTokens(env, One(0), "user").1 == ["token"]
  {
    var w := One(0);
    assert env.wait(0) == 0 && env.others(0) == [] && env.redisOk(0);
    assert env.list(0, {"token"}) == Listing({"token"});
    ListingOfOne("token");
    assert IsFair(env);
    hide Sample, IsFair, Sound;
    QuietPass(env, w, 0);
    assert Members(Mark(Wait(env, w), RevokeUser("user")).store, "user") == {"token"};
  }

  lemma FailedKeyDelLeavesUnindexed()
    ensures var w' := DeleteUserSessions(Sample(1, -1, 0, -1, []), One(0), "user");
            "token" in w'.issued && IsLive(w'.store, "token") && !IsIndexed(w', "token")
  {
    var env, w := Sample(1, -1, 0, -1, []), One(0);
    hide Sample, Sound, IsStill, Quiet, IndexComplete, IsFair, DeleteUserSessions, ListTokens;
    OneIsListed(env);
    NothingElseHappens(1, DeleteUserSessions(env, w, "user").n);
    BulkWithFailedDel(env, w, "user", "token");
    BulkTakesNoTime(env, w, "user");
  }

  /** A login, as another request runs it in one instant. */
  function OtherLogin(): seq<Command> {
    [SetSession("other", Session("user", 10)), AddMember("user", "other"), ExpireIndex("user")]
  }

  /** The index of a fresh service after that login. */
  lemma OtherLoginRuns(w: World)
    requires Sound(w) && w.issued == map[] && w.ttl == 10 && w.store.now == 0
    ensures var w' := Interfere(w, OtherLogin());
            && "other" in w'.issued && w'.issued["other"].user == "user" && IsLive(w'.store, "other") && w'.n == w.n
  {
    hide Sound;
    assert OtherLogin()[..0] == [] && Interfere(w, []) == w;
    hide Interfere;
    LastThree(w, OtherLogin());
  }

  /**
   A login that comes between the SMEMBERS and the DEL of a bulk revocation ends up live and unindexed; nothing fails.
   */
  lemma OvertakenBulkLeavesUnindexed()
    ensures var w' := DeleteUserSessions(Sample(-1, -1, 0, 1, OtherLogin()), Startup(0, 10), "user");
            "other" in w'.issued && IsLive(w'.store, "other") && !IsIndexed(w', "other")
  {
    var env, w := Sample(-1, -1, 0, 1, OtherLogin()), Startup(0, 10);
    assert env.others(0) == [] && env.others(1) == OtherLogin() && env.others(2) == [] && env.redisOk(1);
    assert env.wait(0) == env.wait(1) == env.wait(2) == 0;
    assert IsFair(env);
    hide Sample, OtherLogin;
    QuietPass(env, w, 0);
    var (w1, tokens) := ListTokens(env, w, "user");
    assert Members(w1.store, "user") == {};
    assert tokens == [] && DeleteListed(env, w1, tokens) == w1;
    assert w1.n == 1 && w1.issued == map[] && w1.ttl == 10 && w1.store.now == 0;
    LaterKeepsSound(w1, 0);
    hide Sound, IsFair, IndexComplete, ListTokens, DeleteUserSessions, Interfere, Evolves;
    OtherLoginRuns(Later(w1, 0));
    DeletedUnderALiveSession(env, w, "user", "other");
  }

  // ----- a creation

  /** How CreateSession goes on once its SET has succeeded. */
  lemma CreationEnds(env: Env, w: World, user: User)
    requires IsFair(env) && Sound(w) && env.redisOk(w.n + 1)
    ensures var (w', reply) := CreateSession(env, w, user);
            var (token, after) := (StoreSession(env, w, user).1, AfterExpire(env, w, user));
            && token.Some?
            && if env.redisOk(w.n + 2) then
                 reply.Issued? && reply.token == token.value
                 && w' == Audit(env, after, UpsertAudit(token.value, reply.session))
               else reply.Denied? && w' == after
  {
    hide Sound, Evolves, IsFair;
  }

  /** The second session of the user is stored at instant 9 until 19; the set keeps its deadline, 10. */
  lemma AddedAtNine(env: Env)
    requires IsFair(env) && (forall n: nat :: env.others(n) == [] && env.wait(n) == 0) && env.redisOk(1)
    requires env.gap(1) == env.gap(2) == 0
    ensures var (token, added) := (StoreSession(env, One(9), "user").1, AfterAdd(env, One(9), "user"));
            && token.Some? && token.value in added.issued && token.value in added.store.sessions
            && added.store.sessions[token.value].deadline == 19 && added.issued[token.value].user == "user"
            && added.store.now == 9 && added.n == 3 && added.ttl == 10
            && (env.redisOk(2) ==> "user" in added.store.index && added.store.index["user"].deadline == Some(10))
  {
    var w := One(9);
    QuietPass(env, w, 0);
    QuietPass(env, Later(w, 0), 0);
    var (w1, stored) := StoreSession(env, w, "user");
    assert w1.n == 2 && w1.store.now == 9 && w1.store.index == w.store.index && w1.ttl == 10;
    QuietPass(env, w1, 0);
    hide StoreSession, Sound, IndexComplete, Evolves, IsFair;
  }

  /** What is unindexed right after EXPIRE is so when CreateSession returns. */
  lemma StaysUnindexed(env: Env, time: nat)
    requires IsFair(env) && (forall n: nat :: env.others(n) == [] && env.wait(n) == 0) && env.redisOk(1)
    requires env.gap(1) == env.gap(2) == 0 && env.gap(3) == time < 10
    requires env.redisOk(2) && env.redisOk(3) ==> time >= 1
    ensures var (w', reply) := CreateSession(env, One(9), "user");
            var token := StoreSession(env, One(9), "user").1;
            && token.Some? && token.value in w'.issued && IsLive(w'.store, token.value) && !IsIndexed(w', token.value)
            && (if env.redisOk(2) then reply.Issued? && reply.token == token.value else reply.Denied?)
  {
    hide StoreSession, CreateSession, AfterAdd, Sound, IndexComplete, Evolves, IsFair;
    var w := One(9);
    var added, after := AfterAdd(env, w, "user"), AfterExpire(env, w, "user");
    var token := StoreSession(env, w, "user").1;
    AddedAtNine(env);
    CreationIndexesExactlyIf(env, w, "user");
    QuietPass(env, added, time);
    CreationEnds(env, w, "user");
    assert IsLive(after.store, token.value) && !IsIndexed(after, token.value);
    if env.redisOk(2) {
      RowsDoNotMatter(env, after, UpsertAudit(token.value, CreateSession(env, w, "user").1.session), token.value);
    }
  }

  /** A login whose EXPIRE fails is answered with a token that is live and, the set running out earlier, unindexed. */
  lemma FailedExpireLeavesUnindexed()
    ensures var (w', reply) := CreateSession(Sample(3, -1, 0, -1, []), One(9), "user");
            reply.Issued? && reply.token in w'.issued && IsLive(w'.store, reply.token) && !IsIndexed(w', reply.token)
  {
    StaysUnindexed(Sample(3, -1, 0, -1, []), 0);
  }

  /** A login whose SADD fails is answered with an error, and leaves a session that is live and unindexed. */
  lemma FailedAddLeavesUnindexed()
    ensures var (w', reply) := CreateSession(Sample(2, -1, 0, -1, []), One(9), "user");
            reply.Denied? && exists token :: token in w'.issued && IsLive(w'.store, token) && !IsIndexed(w', token)
  {
    StaysUnindexed(Sample(2, -1, 0, -1, []), 0);
  }

  /**
   A login whose user's set runs out between SADD and EXPIRE is returned, and is live and unindexed; nothing fails.
   */
  lemma LateExpireLeavesUnindexed()
    ensures var (w', reply) := CreateSession(Sample(-1, 3, 5, -1, []), One(9), "user");
            reply.Issued? && reply.token in w'.issued && IsLive(w'.store, reply.token) && !IsIndexed(w', reply.token)
  {
    StaysUnindexed(Sample(-1, 3, 5, -1, []), 5);
  }
}
