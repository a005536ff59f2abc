/**
 What the session service keeps (tcp-auth-server): a Redis key per token with a time to live, a Redis set of tokens
 per user with its own time to live, and an audit row per token in PostgreSQL. Commands are atomic, the clock moves
 between them, and other requests' commands may run in between.
 */
module SessionStore {
  import opened Options

  type Token = string
  type User = string

  /** The stored session; the token is its key. Times are instants of one shared clock. */
  datatype Session = Session(user: User, expiresAt: int)

  /** A Redis value with the instant at which Redis drops it. */
  datatype Entry = Entry(session: Session, deadline: int)

  /** A Redis set; it has no deadline until EXPIRE gives it one. */
  datatype Index = Index(members: set<Token>, deadline: Option<int>)

  datatype Store = Store(now: int, sessions: map<Token, Entry>, index: map<User, Index>, audit: map<Token, Session>)

  /** A key is gone once its time to live has fully elapsed. */
  predicate IsLive(store: Store, token: Token) {
    token in store.sessions && store.now < store.sessions[token].deadline
  }

  predicate IndexIsLive(store: Store, user: User) {
    user in store.index && (store.index[user].deadline.Some? ==> store.now < store.index[user].deadline.value)
  }

  /** SMEMBERS user_sessions:<user> */
  function Members(store: Store, user: User): set<Token> {
    if IndexIsLive(store, user) then store.index[user].members else {}
  }

  /** The writing commands, and two marks that change no table: a request to revoke a token, or all of a user's. */
  datatype Command =
    | SetSession(token: Token, session: Session)   // SET session:<token> with the service's time to live
    | DelSession(token: Token)                     // DEL session:<token>
    | AddMember(user: User, token: Token)          // SADD user_sessions:<user>
    | ExpireIndex(user: User)                      // EXPIRE user_sessions:<user>
    | RemoveMember(user: User, token: Token)       // SREM user_sessions:<user>
    | DelIndex(user: User)                         // DEL user_sessions:<user>
    | UpsertAudit(token: Token, session: Session)  // INSERT ... ON CONFLICT (session_token) DO UPDATE
    | DeleteAudit(token: Token)                    // DELETE ... WHERE session_token
    | DeleteUserAudit(user: User)                  // DELETE ... WHERE user_id
    | Revoke(token: Token)
    | RevokeUser(user: User)

  function Apply(ttl: int, store: Store, command: Command): Store {
    match command
    case SetSession(token, session) => store.(sessions := store.sessions[token := Entry(session, store.now + ttl)])
    case DelSession(token) => store.(sessions := store.sessions - {token})
    case AddMember(user, token) =>
      var deadline := if IndexIsLive(store, user) then store.index[user].deadline else None;
      store.(index := store.index[user := Index(Members(store, user) + {token}, deadline)])
    case ExpireIndex(user) =>
      if IndexIsLive(store, user)
      then store.(index := store.index[user := store.index[user].(deadline := Some(store.now + ttl))])
      else store
    case RemoveMember(user, token) =>
      if !IndexIsLive(store, user) then store
      else if store.index[user].members - {token} == {} then store.(index := store.index - {user})
      else store.(index := store.index[user := store.index[user].(members := store.index[user].members - {token})])
    case DelIndex(user) => store.(index := store.index - {user})
    case UpsertAudit(token, session) =>
      var row := if token in store.audit then store.audit[token].(expiresAt := session.expiresAt) else session;
      store.(audit := store.audit[token := row])
    case DeleteAudit(token) => store.(audit := store.audit - {token})
    case DeleteUserAudit(user) =>
      store.(audit := map token | token in store.audit && store.audit[token].user != user :: store.audit[token])
    case Revoke(_) => store
    case RevokeUser(_) => store
  }

  /**
   The store, the service's time to live, and the history: every session ever stored under each token, the tokens whose
   revocation has been asked for, and whether other requests have so far kept the index in order (see AreOrderly).
   n numbers the waits for a command.
   */
  datatype World = World(store: Store, ttl: int, n: nat,
                         issued: map<Token, Session>, revoked: set<Token>, orderly: bool)

  function TokensOf(w: World, user: User): set<Token> {
    set token | token in w.issued && w.issued[token].user == user
  }

  function Execute(w: World, command: Command): World {
    var store := Apply(w.ttl, w.store, command);
    match command
    case SetSession(token, session) => w.(store := store, issued := w.issued[token := session])
    case Revoke(token) => w.(store := store, revoked := w.revoked + {token})
    case RevokeUser(user) => w.(store := store, revoked := w.revoked + TokensOf(w, user))
    case _ => w.(store := store)
  }

  /** May the service delete this token's key? Only if its revocation was asked for or its session has expired. */
  predicate Deletable(w: World, token: Token) {
    token in w.revoked || (token in w.issued && w.store.now > w.issued[token].expiresAt)
  }

  /** The commands that requests of the service send: the functions of SessionLogic send no other. */
  predicate Permitted(w: World, command: Command) {
    match command
    case SetSession(token, session) => token !in w.issued && session.expiresAt <= w.store.now + w.ttl
    case DelSession(token) => Deletable(w, token)
    case DeleteAudit(token) => Deletable(w, token)
    case RemoveMember(_, token) => Deletable(w, token)
    case AddMember(user, token) => token in w.issued && w.issued[token].user == user
    case UpsertAudit(token, session) => token in w.issued && w.issued[token] == session
    case _ => true
  }

  // ----- invariant and evolution

  /** Redis holds sessions as they were issued, and no shorter than until they expire. */
  ghost predicate KeysSound(w: World) {
    forall token :: token in w.store.sessions ==>
      token in w.issued && w.store.sessions[token].session == w.issued[token] &&
      w.issued[token].expiresAt <= w.store.sessions[token].deadline <= w.store.now + w.ttl
  }

  ghost predicate AuditSound(w: World) {
    forall token :: token in w.store.audit ==> token in w.issued && w.store.audit[token] == w.issued[token]
  }

  /** A session that was not revoked and has not expired is still under its key. */
  ghost predicate KeysComplete(w: World) {
    forall token :: token in w.issued && !Deletable(w, token) ==> token in w.store.sessions
  }

  /**
   Every token in a user's set was issued to that user, no set is empty, and none lasts longer than one given its
   deadline now would.
   */
  ghost predicate IndexSound(w: World) {
    && (forall user, token :: user in w.store.index && token in w.store.index[user].members ==>
          token in w.issued && w.issued[token].user == user)
    && (forall user :: user in w.store.index ==> w.store.index[user].members != {})
    && (forall user :: user in w.store.index && w.store.index[user].deadline.Some? ==>
          w.store.index[user].deadline.value <= w.store.now + w.ttl)
  }

  /** No session expires later than one created now would. */
  ghost predicate ExpiryBounded(w: World) {
    forall token :: token in w.issued ==> w.issued[token].expiresAt <= w.store.now + w.ttl
  }

  ghost predicate Sound(w: World) {
    KeysSound(w) && AuditSound(w) && KeysComplete(w) && IndexSound(w) && ExpiryBounded(w)
  }

  ghost predicate HistoryGrows(v: World, w: World) {
    && v.store.now <= w.store.now && v.n <= w.n && v.ttl == w.ttl
    && v.revoked <= w.revoked && (w.orderly ==> v.orderly)
    && forall token :: token in v.issued ==> token in w.issued && w.issued[token] == v.issued[token]
  }

  /** Once gone from Redis a token never comes back, and while it is there its entry does not change. */
  ghost predicate KeysOnlyGo(v: World, w: World) {
    forall token :: token in v.issued && token in w.store.sessions ==>
      token in v.store.sessions && w.store.sessions[token] == v.store.sessions[token]
  }

  ghost predicate Evolves(v: World, w: World) {
    HistoryGrows(v, w) && KeysOnlyGo(v, w)
  }

  lemma EvolvesTransitively(u: World, v: World, w: World)
    requires Evolves(u, v) && Evolves(v, w)
    ensures Evolves(u, w)
  {
    forall token | token in u.issued && token in w.store.sessions
      ensures token in u.store.sessions && w.store.sessions[token] == u.store.sessions[token]
    {
      assert token in v.issued;
    }
  }

  lemma ExecuteKeepsKeys(w: World, command: Command)
    requires KeysSound(w) && KeysComplete(w) && Permitted(w, command)
    ensures KeysSound(Execute(w, command)) && KeysComplete(Execute(w, command))
  {}

  lemma ExecuteKeepsAudit(w: World, command: Command)
    requires AuditSound(w) && Permitted(w, command)
    ensures AuditSound(Execute(w, command))
  {}

  lemma ExecuteKeepsIndex(w: World, command: Command)
    requires IndexSound(w) && Permitted(w, command)
    ensures IndexSound(Execute(w, command))
  {}

  /** ON CONFLICT (session_token): a row that is there gets the new expiry and keeps its user; no other row changes. */
  lemma UpsertKeepsTheUser(w: World, token: Token, session: Session)
    ensures var rows := Execute(w, UpsertAudit(token, session)).store.audit;
            && token in rows && rows - {token} == w.store.audit - {token} && rows[token].expiresAt == session.expiresAt
            && rows[token].user == if token in w.store.audit then w.store.audit[token].user else session.user
  {}

  /** Every permitted command keeps the invariant, and nothing it does can be undone later. */
  lemma ExecuteKeepsSound(w: World, command: Command)
    requires Sound(w) && Permitted(w, command)
    ensures Sound(Execute(w, command)) && Evolves(w, Execute(w, command))
  {
    ExecuteKeepsKeys(w, command);
    ExecuteKeepsAudit(w, command);
    ExecuteKeepsIndex(w, command);
  }

  // ----- the outside

  /** A row of the users table. */
  datatype Account = Account(user: User, hash: string)

  /**
   Everything the service does not decide: how long each wait is (gap: between the Redis commands of CreateSession),
   which Redis commands, audit statements and user lookups fail, which tokens are drawn, in which order SMEMBERS lists
   a set, which hashes a password matches, and which commands other requests run while this one waits.
   */
  datatype Env = Env(accounts: map<string, Account>, matches: (string, string) -> bool,
                     wait: nat -> nat, gap: nat -> nat,
                     redisOk: nat -> bool, auditOk: nat -> bool, lookupOk: nat -> bool,
                     draw: (nat, set<Token>) -> Token, list: (nat, set<Token>) -> seq<Token>,
                     others: nat -> seq<Command>)

  function Users(env: Env): set<User> {
    set name | name in env.accounts :: env.accounts[name].user
  }

  /** Drawn tokens are fresh and not empty, and SMEMBERS lists each member. */
  ghost predicate IsFair(env: Env) {
    && (forall n: nat, used: set<Token> :: env.draw(n, used) !in used && env.draw(n, used) != "")
    && (forall n: nat, members: set<Token>, token :: token in env.list(n, members) <==> token in members)
  }

  /** Other requests run what the service permits. */
  function Interfere(w: World, commands: seq<Command>): World {
    if commands == [] then w
    else
      var before := Interfere(w, commands[..|commands| - 1]);
      if Permitted(before, commands[|commands| - 1]) then Execute(before, commands[|commands| - 1]) else before
  }

  lemma {:induction false} InterferenceKeepsSound(w: World, commands: seq<Command>)
    requires Sound(w)
    ensures Sound(Interfere(w, commands)) && Evolves(w, Interfere(w, commands))
  {
    if commands != [] {
      var before, command := Interfere(w, commands[..|commands| - 1]), commands[|commands| - 1];
      InterferenceKeepsSound(w, commands[..|commands| - 1]);
      if Permitted(before, command) {
        ExecuteKeepsSound(before, command);
        EvolvesTransitively(w, before, Execute(before, command));
      }
    }
  }

  /** Is this a command of another request that neither takes a live session out of the index nor leaves it out? */
  predicate IsOrderly(w: World, command: Command) {
    match command
    case SetSession(_, _) => false
    case RemoveMember(user, token) => !(token in w.issued && w.issued[token].user == user && IsLive(w.store, token))
    case DelIndex(user) => forall token :: token in w.issued && w.issued[token].user == user ==> !IsLive(w.store, token)
    case _ => true
  }

  /** SET, SADD and EXPIRE of one creation, in one instant. */
  predicate IsCreation(commands: seq<Command>) {
    && |commands| == 3 && commands[0].SetSession?
    && commands[1] == AddMember(commands[0].session.user, commands[0].token)
    && commands[2] == ExpireIndex(commands[0].session.user)
  }

  /** Orderly commands, and creations that run as one block. */
  predicate AreOrderly(w: World, commands: seq<Command>) {
    var n := |commands|;
    if n == 0 then true
    else if n >= 3 && IsCreation(commands[n - 3..]) then AreOrderly(w, commands[..n - 3])
    else AreOrderly(w, commands[..n - 1]) && IsOrderly(Interfere(w, commands[..n - 1]), commands[n - 1])
  }

  function Later(w: World, time: nat): World {
    w.(store := w.store.(now := w.store.now + time), n := w.n + 1)
  }

  lemma {:induction false} InterferenceCounts(w: World, commands: seq<Command>)
    ensures Interfere(w, commands).n == w.n
  {
    if commands != [] {
      InterferenceCounts(w, commands[..|commands| - 1]);
    }
  }

  /** Time passes, and other requests run, before a command is executed or the clock is read. */
  function Pass(env: Env, w: World, time: nat): (w': World)
    ensures w'.n == w.n + 1
  {
    var later := Later(w, time);
    InterferenceCounts(later, env.others(w.n));
    Interfere(later, env.others(w.n)).(orderly := w.orderly && AreOrderly(later, env.others(w.n)))
  }

  function Wait(env: Env, w: World): (w': World)
    ensures w'.n == w.n + 1
  {
    Pass(env, w, env.wait(w.n))
  }

  lemma LaterKeepsSound(w: World, time: nat)
    requires Sound(w)
    ensures Sound(Later(w, time)) && Evolves(w, Later(w, time))
  {
    assert forall token :: !Deletable(Later(w, time), token) ==> !Deletable(w, token);
  }

  lemma FlagKeepsSound(u: World, w: World, orderly: bool)
    requires Sound(w) && Evolves(u, w) && (orderly ==> u.orderly)
    ensures Sound(w.(orderly := orderly)) && Evolves(u, w.(orderly := orderly))
  {
    assert forall token :: Deletable(w.(orderly := orderly), token) == Deletable(w, token);
  }

  lemma PassKeepsSound(env: Env, w: World, time: nat)
    requires Sound(w)
    ensures Sound(Pass(env, w, time)) && Evolves(w, Pass(env, w, time))
    ensures Pass(env, w, time).store.now >= w.store.now + time
  {
    var later := Later(w, time);
    var after := Interfere(later, env.others(w.n));
    LaterKeepsSound(w, time);
    InterferenceKeepsSound(later, env.others(w.n));
    EvolvesTransitively(w, later, after);
    assert after.store.now >= later.store.now;
    hide Sound, Evolves, AreOrderly;
    FlagKeepsSound(w, after, Pass(env, w, time).orderly);
  }
}
