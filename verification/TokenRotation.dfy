// Refresh-token rotation as a concurrent protocol: any number of logins,
// refreshes, revocations and logouts interleave at their database accesses,
// and any of them can die in between. The scheme is the one described in
// section 4.14.2 of RFC 9700.

module TokenRotation {
  import opened Sums
  import opened TokenDb

  /** Where a request stands between two database accesses. */
  datatype Pending =
    | LoggingIn(userId: Id, version: nat)   // the user was read; the row is not written yet
    | Exchanging(held: Token)               // the snapshot passed every check
    | Bumping(userId: Id)                   // about to raise the user's version
    | Revoking(userId: Id)                  // about to revoke the user's rows

  datatype Step =
    | Register(user: User)
    | ReadUser(request: Id, userId: Id)
    | WriteLogin(request: Id, id: Id, hash: string, expiresAt: int)
    | ReadToken(request: Id, hash: string)
    | Exchange(request: Id, id: Id, hash: string, expiresAt: int)
    | StartLogoutAll(request: Id, userId: Id)
    | Bump(request: Id)
    | RevokeAll(request: Id)
    | RevokeOne(hash: string)
    | Crash(request: Id)

  datatype State = State(
    db: Db,
    pending: map<Id, Pending>,
    clock: nat,
    logins: set<Id>,           // the rows written by login
    exchanged: seq<Token>)     // the rows exchanged successfully, in order

  function Fresh(s: State, id: Id, hash: string, userId: Id, version: nat, expiresAt: int): Token {
    Token(id, hash, userId, version, expiresAt, false, None, None, s.clock)
  }

  /** What a refresh does once it has read the row: go on, raise the alarm, or fail. */
  function AfterRead(db: Db, token: Token, now: int): Option<Pending> {
    if token.userId !in db.users then None
    else if token.revoked then
      if token.replacedBy.Some? then Some(Bumping(token.userId)) else None
    else if token.expiresAt <= now then None
    else if db.users[token.userId].tokenVersion != token.tokenVersion then None
    else Some(Exchanging(token))
  }

  ghost function FindByHash(tokens: map<Id, Token>, hash: string): Option<Token> {
    if HashTaken(tokens, hash) then
      var id :| id in tokens && tokens[id].hash == hash;
      Some(tokens[id])
    else None
  }

  function Continue(s: State, request: Id, next: Option<Pending>): State {
    s.(pending := if next.Some? then s.pending[request := next.value] else s.pending - {request})
  }

  /** One database access. A step that does not fit the request's state leaves everything alone. */
  ghost function Act(s: State, step: Step): State {
    match step
    case Register(user) =>
      if user.id in s.db.users then s
      else s.(db := s.db.(users := s.db.users[user.id := user.(tokenVersion := 0)]))
    case ReadUser(r, u) =>
      if r in s.pending || u !in s.db.users then s
      else Continue(s, r, Some(LoggingIn(u, s.db.users[u].tokenVersion)))
    case WriteLogin(r, id, hash, expiresAt) =>
      if r !in s.pending || !s.pending[r].LoggingIn? || id in s.db.tokens then s
      else
        var p := s.pending[r];
        var result := Execute(s.db, CreateToken(Fresh(s, id, hash, p.userId, p.version, expiresAt)));
        if result.Threw? then Continue(s, r, None)
        else Continue(s, r, None).(db := result.db, logins := s.logins + {id})
    case ReadToken(r, hash) =>
      if r in s.pending then s
      else
        var found := FindByHash(s.db.tokens, hash);
        if found.None? then s else Continue(s, r, AfterRead(s.db, found.value, s.clock))
    case Exchange(r, id, hash, expiresAt) =>
      if r !in s.pending || !s.pending[r].Exchanging? || id in s.db.tokens then s
      else
        var held := s.pending[r].held;
        var result :=
          Transact(s.db, Rotation(held.id, Fresh(s, id, hash, held.userId, held.tokenVersion, expiresAt), s.clock));
        if result.Done? then Continue(s, r, None).(db := result.db, exchanged := s.exchanged + [held])
        else Continue(s, r, if result.error.ReuseDetected? then Some(Bumping(held.userId)) else None)
    case StartLogoutAll(r, u) =>
      if r in s.pending || u !in s.db.users then s else Continue(s, r, Some(Bumping(u)))
    case Bump(r) =>
      if r !in s.pending || !s.pending[r].Bumping? then s
      else
        var u := s.pending[r].userId;
        var result := Execute(s.db, BumpUser(u, 1));
        if result.Threw? then Continue(s, r, None)
        else Continue(s, r, Some(Revoking(u))).(db := result.db)
    case RevokeAll(r) =>
      if r !in s.pending || !s.pending[r].Revoking? then s
      else
        var w := EVERYWHERE.(userId := Some(s.pending[r].userId), revoked := Some(false));
        Continue(s, r, None).(db := UpdateTokens(s.db, w, RevokePatch(s.clock)))
    case RevokeOne(hash) =>
      var w := EVERYWHERE.(hash := Some(hash), revoked := Some(false));
      s.(db := UpdateTokens(s.db, w, RevokePatch(s.clock)))
    case Crash(r) => Continue(s, r, None)
  }

  ghost function Next(s: State, step: Step): State {
    Act(s, step).(clock := s.clock + 1)
  }

  ghost function Run(s: State, steps: seq<Step>): State
    decreases |steps|
  {
    if steps == [] then s else Run(Next(s, steps[0]), steps[1..])
  }

  ghost predicate Initial(s: State) {
    s.db.tokens == map[] && s.pending == map[] && s.logins == {} && s.exchanged == []
  }

  // ---- the invariant ----

  ghost predicate RowOk(db: Db, clock: nat, id: Id)
    requires id in db.tokens
  {
    var t := db.tokens[id];
    && t.id == id
    && t.createdAt < clock
    && t.userId in db.users && t.tokenVersion <= db.users[t.userId].tokenVersion
    && (t.replacedBy.Some? ==> t.revoked && LinkOk(db.tokens, id))
  }

  ghost predicate RowsOk(db: Db, clock: nat) {
    && (forall u :: u in db.users ==> db.users[u].id == u)
    && (forall id :: id in db.tokens ==> RowOk(db, clock, id))
  }

  /** A replaced row names a younger row of the same user and version. */
  ghost predicate LinkOk(tokens: map<Id, Token>, id: Id)
    requires id in tokens && tokens[id].replacedBy.Some?
  {
    var (t, next) := (tokens[id], tokens[id].replacedBy.value);
    && next in tokens
    && t.createdAt < tokens[next].createdAt
    && t.userId == tokens[next].userId
    && t.tokenVersion == tokens[next].tokenVersion
  }

  ghost predicate Replaces(tokens: map<Id, Token>, older: Id, id: Id) {
    older in tokens && tokens[older].replacedBy == Some(id)
  }

  /** No row replaces two others; the rows that replace none are those of a login. */
  ghost predicate LinksOk(tokens: map<Id, Token>, logins: set<Id>) {
    && (forall a, b, id :: Replaces(tokens, a, id) && Replaces(tokens, b, id) ==> a == b)
    && (forall a, id :: Replaces(tokens, a, id) ==> id !in logins)
    && logins <= tokens.Keys
    && (forall id :: id in tokens && id !in logins ==> exists older :: Replaces(tokens, older, id))
  }

  ghost predicate HashesUnique(tokens: map<Id, Token>) {
    forall a, b :: a in tokens && b in tokens && tokens[a].hash == tokens[b].hash ==> a == b
  }

  ghost predicate PendingOk(db: Db, p: Pending) {
    match p
    case LoggingIn(u, version) => u in db.users && version <= db.users[u].tokenVersion
    case Exchanging(held) => held.id in db.tokens && SameIdentity(held, db.tokens[held.id])
    case Bumping(u) => u in db.users
    case Revoking(u) => u in db.users
  }

  ghost predicate RequestsOk(db: Db, pending: map<Id, Pending>) {
    forall r :: r in pending ==> PendingOk(db, pending[r])
  }

  predicate SameIdentity(a: Token, b: Token) {
    a.id == b.id && a.hash == b.hash && a.userId == b.userId && a.tokenVersion == b.tokenVersion
  }

  /** Every exchange left its link behind, and no row was exchanged twice. */
  ghost predicate ExchangesOk(tokens: map<Id, Token>, exchanged: seq<Token>) {
    && (forall i :: 0 <= i < |exchanged| ==>
          exchanged[i].id in tokens && tokens[exchanged[i].id].replacedBy.Some?)
    && (forall i, j :: 0 <= i < j < |exchanged| ==> exchanged[i].id != exchanged[j].id)
  }

  ghost predicate Inv(s: State) {
    && RowsOk(s.db, s.clock)
    && LinksOk(s.db.tokens, s.logins)
    && HashesUnique(s.db.tokens)
    && RequestsOk(s.db, s.pending)
    && ExchangesOk(s.db.tokens, s.exchanged)
  }

  /** What time can do to a database: users' versions rise, rows stay and keep their identity. */
  ghost predicate Grows(a: Db, b: Db) {
    && (forall u :: u in a.users ==> u in b.users && a.users[u].tokenVersion <= b.users[u].tokenVersion)
    && (forall id :: id in a.tokens ==>
          && id in b.tokens
          && SameIdentity(a.tokens[id], b.tokens[id])
          && (a.tokens[id].revoked ==> b.tokens[id].revoked)
          && (a.tokens[id].replacedBy.Some? ==> b.tokens[id].replacedBy == a.tokens[id].replacedBy))
  }

  /** A database that only grew suits the requests in flight and the exchanges on record. */
  lemma GrownRequests(s: State, db: Db)
    requires Inv(s) && Grows(s.db, db)
    ensures RequestsOk(db, s.pending) && ExchangesOk(db.tokens, s.exchanged)
  {
  }

  // ---- each kind of access keeps the invariant ----

  /** A request moving on without touching the database. */
  lemma ContinueKeeps(s: State, r: Id, next: Option<Pending>)
    requires Inv(s) && (next.Some? ==> PendingOk(s.db, next.value))
    ensures Inv(Continue(s, r, next)) && Inv(Continue(s, r, next).(clock := s.clock + 1))
    ensures Inv(s.(clock := s.clock + 1))
  {
    hide LinksOk, HashesUnique, ExchangesOk;
  }

  /** Writing a row that replaces nothing: a login. */
  lemma LoginKeeps(s: State, t: Token)
    requires Inv(s) && t.id !in s.db.tokens && !HashTaken(s.db.tokens, t.hash)
    requires t == Fresh(s, t.id, t.hash, t.userId, t.tokenVersion, t.expiresAt)
    requires t.userId in s.db.users && t.tokenVersion <= s.db.users[t.userId].tokenVersion
    ensures var db := s.db.(tokens := s.db.tokens[t.id := t]);
            Inv(s.(db := db, logins := s.logins + {t.id}, clock := s.clock + 1)) && Grows(s.db, db)
  {
    var db := s.db.(tokens := s.db.tokens[t.id := t]);
    LoginLinks(s, t);
    GrownRequests(s, db);
    NewHash(s.db.tokens, t);
    hide LinksOk, HashesUnique, RequestsOk, ExchangesOk;
  }

  lemma NewHash(tokens: map<Id, Token>, t: Token)
    requires HashesUnique(tokens) && !HashTaken(tokens, t.hash)
    ensures HashesUnique(tokens[t.id := t])
  {
  }

  lemma LoginLinks(s: State, t: Token)
    requires Inv(s) && t.id !in s.db.tokens && t.replacedBy.None?
    ensures LinksOk(s.db.tokens[t.id := t], s.logins + {t.id})
  {
    var tokens := s.db.tokens[t.id := t];
    forall a, id ensures Replaces(tokens, a, id) <==> Replaces(s.db.tokens, a, id) {}
    forall a, id | Replaces(s.db.tokens, a, id) ensures id in s.db.tokens {
      RowFact(s, a);
    }
    forall id | id in tokens && id !in s.logins + {t.id} ensures exists older :: Replaces(tokens, older, id) {
      var older :| Replaces(s.db.tokens, older, id);
      assert Replaces(tokens, older, id);
    }
  }

  /** The links after an exchange: the old ones, and one from the claimed row to the new one. */
  lemma ExchangeLinks(s: State, held: Id, t: Token, tokens: map<Id, Token>)
    requires Inv(s) && held in s.db.tokens && s.db.tokens[held].replacedBy.None? && t.id !in s.db.tokens
    requires t.replacedBy.None?
    requires held in tokens && tokens[held].replacedBy == Some(t.id)
    requires tokens == s.db.tokens[t.id := t][held := tokens[held]]
    ensures LinksOk(tokens, s.logins)
  {
    forall a, id ensures Replaces(tokens, a, id) <==> (Replaces(s.db.tokens, a, id) || (a == held && id == t.id)) {}
    forall a, id | Replaces(s.db.tokens, a, id) ensures id in s.db.tokens {
      RowFact(s, a);
    }
    forall id | id in tokens && id !in s.logins ensures exists older :: Replaces(tokens, older, id) {
      if id == t.id {
        assert Replaces(tokens, held, id);
      } else {
        var older :| Replaces(s.db.tokens, older, id);
        assert Replaces(tokens, older, id);
      }
    }
  }

  /** A successful exchange: the new row and the claim on the old one arrive together. */
  lemma ExchangeKeeps(s: State, held: Token, t: Token)
    requires Inv(s) && PendingOk(s.db, Exchanging(held)) && !s.db.tokens[held.id].revoked
    requires t.id !in s.db.tokens && !HashTaken(s.db.tokens, t.hash)
    requires t == Fresh(s, t.id, t.hash, held.userId, held.tokenVersion, t.expiresAt)
    ensures var claimed := s.db.tokens[held.id].(revoked := true, revokedAt := Some(s.clock), replacedBy := Some(t.id));
            var db := s.db.(tokens := s.db.tokens[t.id := t][held.id := claimed]);
            Inv(s.(db := db, exchanged := s.exchanged + [held], clock := s.clock + 1)) && Grows(s.db, db)
  {
    var claimed := s.db.tokens[held.id].(revoked := true, revokedAt := Some(s.clock), replacedBy := Some(t.id));
    var db := s.db.(tokens := s.db.tokens[t.id := t][held.id := claimed]);
    RowFact(s, held.id);
    ExchangeLinks(s, held.id, t, db.tokens);
    ExchangeRows(s, held.id, t, claimed);
    GrownRequests(s, db);
    LoggedExchange(s, db.tokens, held);
    hide LinksOk, HashesUnique, RequestsOk, ExchangesOk, RowsOk, Grows;
  }

  lemma ExchangeRows(s: State, held: Id, t: Token, claimed: Token)
    requires Inv(s) && held in s.db.tokens && s.db.tokens[held].replacedBy.None?
    requires t.id !in s.db.tokens && !HashTaken(s.db.tokens, t.hash)
    requires t == Fresh(s, t.id, t.hash, s.db.tokens[held].userId, s.db.tokens[held].tokenVersion, t.expiresAt)
    requires claimed == s.db.tokens[held].(revoked := true, revokedAt := claimed.revokedAt, replacedBy := Some(t.id))
    ensures var db := s.db.(tokens := s.db.tokens[t.id := t][held := claimed]);
            RowsOk(db, s.clock + 1) && HashesUnique(db.tokens) && Grows(s.db, db)
  {
    hide LinksOk, RequestsOk, ExchangesOk;
    var db := s.db.(tokens := s.db.tokens[t.id := t][held := claimed]);
    RowFact(s, held);
    forall id | id in db.tokens ensures RowOk(db, s.clock + 1, id) {
      if id in s.db.tokens { assert RowOk(s.db, s.clock, id); }
    }
    NewHash(s.db.tokens, t);
  }

  lemma LoggedExchange(s: State, tokens: map<Id, Token>, held: Token)
    requires ExchangesOk(s.db.tokens, s.exchanged) && ExchangesOk(tokens, s.exchanged)
    requires held.id in s.db.tokens && s.db.tokens[held.id].replacedBy.None?
    requires held.id in tokens && tokens[held.id].replacedBy.Some?
    ensures ExchangesOk(tokens, s.exchanged + [held])
  {
  }

  /** Revoking any set of rows without replacing them. */
  lemma RevokeKeeps(s: State, w: Where)
    requires Inv(s)
    ensures var db := UpdateTokens(s.db, w, RevokePatch(s.clock));
            Inv(s.(db := db, clock := s.clock + 1)) && Grows(s.db, db)
  {
    var db := UpdateTokens(s.db, w, RevokePatch(s.clock));
    RevokedRows(s, db);
    SameLinks(s, db.tokens);
    GrownRequests(s, db);
    hide LinksOk, HashesUnique, RequestsOk, ExchangesOk, RowsOk, Grows;
  }

  lemma RevokedRows(s: State, db: Db)
    requires Inv(s) && db.users == s.db.users && db.tokens.Keys == s.db.tokens.Keys
    requires forall id :: id in db.tokens ==>
               db.tokens[id] == s.db.tokens[id]
               || db.tokens[id] == s.db.tokens[id].(revoked := true, revokedAt := db.tokens[id].revokedAt)
    ensures RowsOk(db, s.clock + 1) && HashesUnique(db.tokens) && Grows(s.db, db)
  {
    hide LinksOk, RequestsOk, ExchangesOk;
    forall id | id in db.tokens ensures RowOk(db, s.clock + 1, id) {
      assert RowOk(s.db, s.clock, id);
    }
  }

  lemma SameLinks(s: State, tokens: map<Id, Token>)
    requires Inv(s) && tokens.Keys == s.db.tokens.Keys
    requires forall id :: id in tokens ==> tokens[id].replacedBy == s.db.tokens[id].replacedBy
    ensures LinksOk(tokens, s.logins)
  {
    forall a, id ensures Replaces(tokens, a, id) <==> Replaces(s.db.tokens, a, id) {}
    forall id | id in tokens && id !in s.logins ensures exists older :: Replaces(tokens, older, id) {
      var older :| Replaces(s.db.tokens, older, id);
      assert Replaces(tokens, older, id);
    }
  }

  /** A new user, or a raised version. */
  lemma UsersKeep(s: State, user: User)
    requires Inv(s)
    requires user.id in s.db.users ==> s.db.users[user.id].tokenVersion <= user.tokenVersion
    ensures var db := s.db.(users := s.db.users[user.id := user]);
            Inv(s.(db := db, clock := s.clock + 1)) && Grows(s.db, db)
  {
    GrownRequests(s, s.db.(users := s.db.users[user.id := user]));
    hide LinksOk, HashesUnique, RequestsOk, ExchangesOk;
  }

  lemma GrowsRefl(db: Db)
    ensures Grows(db, db)
  {
  }

  lemma FoundFact(s: State, hash: string)
    requires Inv(s) && FindByHash(s.db.tokens, hash).Some?
    ensures var t := FindByHash(s.db.tokens, hash).value;
            t.id in s.db.tokens && s.db.tokens[t.id] == t && t.hash == hash && RowOk(s.db, s.clock, t.id)
  {
  }

  lemma PendingFact(s: State, r: Id)
    requires Inv(s) && r in s.pending
    ensures PendingOk(s.db, s.pending[r])
  {
  }

  lemma UserFact(s: State, u: Id)
    requires Inv(s) && u in s.db.users
    ensures s.db.users[u].id == u
  {
  }

  lemma RowFact(s: State, id: Id)
    requires Inv(s) && id in s.db.tokens
    ensures RowOk(s.db, s.clock, id)
    ensures forall i :: i in s.db.tokens ==> s.db.tokens[i].id == i
  {
  }

  lemma WriteLoginKeeps(s: State, step: Step)
    requires Inv(s) && step.WriteLogin?
    ensures Inv(Next(s, step)) && Grows(s.db, Next(s, step).db)
  {
    hide Inv, Grows;
    var r := step.request;
    ContinueKeeps(s, r, None);
    GrowsRefl(s.db);
    if r in s.pending && s.pending[r].LoggingIn? && step.id !in s.db.tokens && !HashTaken(s.db.tokens, step.hash) {
      var p := s.pending[r];
      PendingFact(s, r);
      LoginKeeps(Continue(s, r, None), Fresh(s, step.id, step.hash, p.userId, p.version, step.expiresAt));
    }
  }

  lemma ExchangeStepKeeps(s: State, step: Step)
    requires Inv(s) && step.Exchange?
    ensures Inv(Next(s, step)) && Grows(s.db, Next(s, step).db)
  {
    hide Inv, Grows;
    var r := step.request;
    ContinueKeeps(s, r, None);
    GrowsRefl(s.db);
    if r in s.pending && s.pending[r].Exchanging? && step.id !in s.db.tokens {
      var held := s.pending[r].held;
      PendingFact(s, r);
      RowFact(s, held.id);
      var t := Fresh(s, step.id, step.hash, held.userId, held.tokenVersion, step.expiresAt);
      RotationOutcome(s.db, held.id, t, s.clock);
      ContinueKeeps(s, r, Some(Bumping(held.userId)));
      if !HashTaken(s.db.tokens, step.hash) && !s.db.tokens[held.id].revoked {
        ExchangeKeeps(Continue(s, r, None), held, t);
      }
    }
  }

  lemma BumpKeeps(s: State, step: Step)
    requires Inv(s) && step.Bump?
    ensures Inv(Next(s, step)) && Grows(s.db, Next(s, step).db)
  {
    hide Inv, Grows;
    var r := step.request;
    ContinueKeeps(s, r, None);
    GrowsRefl(s.db);
    if r in s.pending && s.pending[r].Bumping? {
      var u := s.pending[r].userId;
      PendingFact(s, r);
      var bumped := s.db.users[u].(tokenVersion := s.db.users[u].tokenVersion + 1);
      ContinueKeeps(s, r, Some(Revoking(u)));
      UserFact(s, u);
      UsersKeep(Continue(s, r, Some(Revoking(u))), bumped);
    }
  }

  lemma RevokeStepKeeps(s: State, step: Step)
    requires Inv(s) && (step.RevokeAll? || step.RevokeOne?)
    ensures Inv(Next(s, step)) && Grows(s.db, Next(s, step).db)
  {
    hide Inv, Grows;
    GrowsRefl(s.db);
    match step
    case RevokeAll(r) =>
      ContinueKeeps(s, r, None);
      if r in s.pending && s.pending[r].Revoking? {
        var w := EVERYWHERE.(userId := Some(s.pending[r].userId), revoked := Some(false));
        RevokeKeeps(Continue(s, r, None), w);
      }
    case RevokeOne(hash) =>
      RevokeKeeps(s, EVERYWHERE.(hash := Some(hash), revoked := Some(false)));
  }

  lemma ReadKeeps(s: State, step: Step)
    requires Inv(s) && (step.ReadUser? || step.ReadToken? || step.StartLogoutAll? || step.Crash?)
    ensures Inv(Next(s, step)) && Grows(s.db, Next(s, step).db)
  {
    hide Inv, Grows;
    GrowsRefl(s.db);
    ContinueKeeps(s, step.request, None);
    match step
    case ReadUser(r, u) =>
      if u in s.db.users { ContinueKeeps(s, r, Some(LoggingIn(u, s.db.users[u].tokenVersion))); }
    case ReadToken(r, hash) =>
      var found := FindByHash(s.db.tokens, hash);
      if found.Some? {
        FoundFact(s, hash);
        ContinueKeeps(s, r, AfterRead(s.db, found.value, s.clock));
      }
    case StartLogoutAll(r, u) =>
      if u in s.db.users { ContinueKeeps(s, r, Some(Bumping(u))); }
    case Crash(r) =>
  }

  /** Every database access keeps the invariant, whatever else is in flight. */
  lemma StepKeeps(s: State, step: Step)
    requires Inv(s)
    ensures Inv(Next(s, step)) && Grows(s.db, Next(s, step).db)
  {
    match step
    case Register(user) =>
      if user.id !in s.db.users {
        UsersKeep(s, user.(tokenVersion := 0));
      } else {
        assert Inv(s.(clock := s.clock + 1));
      }
    case WriteLogin(_, _, _, _) => WriteLoginKeeps(s, step);
    case Exchange(_, _, _, _) => ExchangeStepKeeps(s, step);
    case Bump(_) => BumpKeeps(s, step);
    case RevokeAll(_) => RevokeStepKeeps(s, step);
    case RevokeOne(_) => RevokeStepKeeps(s, step);
    case _ => ReadKeeps(s, step);
  }

  lemma InitialInv(s: State)
    requires Initial(s) && forall u :: u in s.db.users ==> s.db.users[u].id == u
    ensures Inv(s)
  {
  }

  /** Every interleaving keeps the invariant, and never takes anything back. */
  lemma {:induction false} RunKeeps(s: State, steps: seq<Step>)
    requires Inv(s)
    ensures Inv(Run(s, steps)) && Grows(s.db, Run(s, steps).db)
    decreases |steps|
  {
    if steps == [] {
      GrowsRefl(s.db);
    } else {
      hide Inv, Grows, Next;
      StepKeeps(s, steps[0]);
      RunKeeps(Next(s, steps[0]), steps[1..]);
      GrowsTrans(s.db, Next(s, steps[0]).db, Run(s, steps).db);
    }
  }

  // ---- one live token per login ----

  /** The row of the login an exchange chain started from. */
  ghost function Root(s: State, id: Id): (root: Id)
    requires Inv(s) && id in s.db.tokens
    ensures root in s.db.tokens
    decreases s.db.tokens[id].createdAt
  {
    if exists older :: Replaces(s.db.tokens, older, id) then
      var older :| Replaces(s.db.tokens, older, id);
      RowFact(s, older);
      Root(s, older)
    else id
  }

  /** The newest row of the chain `id` is in. */
  ghost function Tip(s: State, id: Id): Id
    requires Inv(s) && id in s.db.tokens
    decreases s.clock - s.db.tokens[id].createdAt
  {
    RowFact(s, id);
    if s.db.tokens[id].replacedBy.None? then id
    else
      RowFact(s, s.db.tokens[id].replacedBy.value);
      Tip(s, s.db.tokens[id].replacedBy.value)
  }

  /** Every row belongs to exactly one login's chain, which has one user and one version. */
  lemma {:induction false} RootIsLogin(s: State, id: Id)
    requires Inv(s) && id in s.db.tokens
    ensures var root := Root(s, id);
            && root in s.logins && root in s.db.tokens
            && s.db.tokens[root].userId == s.db.tokens[id].userId
            && s.db.tokens[root].tokenVersion == s.db.tokens[id].tokenVersion
            && s.db.tokens[root].createdAt <= s.db.tokens[id].createdAt
            && Tip(s, root) == Tip(s, id)
    decreases s.db.tokens[id].createdAt
  {
    if exists older :: Replaces(s.db.tokens, older, id) {
      var older :| Replaces(s.db.tokens, older, id) && Root(s, id) == Root(s, older);
      RowFact(s, older);
      RootIsLogin(s, older);
    }
  }

  predicate Live(s: State, id: Id) {
    id in s.db.tokens && !s.db.tokens[id].revoked
  }

  /** Only the newest row of a chain can be unrevoked, so a login has at most one live token. */
  lemma OneLivePerLogin(s: State, a: Id, b: Id)
    requires Inv(s) && Live(s, a) && Live(s, b)
    requires Root(s, a) == Root(s, b)
    ensures a == b == Tip(s, Root(s, a))
  {
    RootIsLogin(s, a);
    RootIsLogin(s, b);
    RowFact(s, a);
    RowFact(s, b);
  }

  /** Both facts over all runs, and no token is ever exchanged twice. */
  lemma RotationIsSafe(s: State, steps: seq<Step>)
    requires Initial(s) && forall u :: u in s.db.users ==> s.db.users[u].id == u
    ensures var f := Run(s, steps);
            && Inv(f)
            && (forall a, b | Live(f, a) && Live(f, b) && Root(f, a) == Root(f, b) :: a == b)
            && (forall i, j :: 0 <= i < j < |f.exchanged| ==> f.exchanged[i].id != f.exchanged[j].id)
  {
    InitialInv(s);
    RunKeeps(s, steps);
    var f := Run(s, steps);
    forall a, b | Live(f, a) && Live(f, b) && Root(f, a) == Root(f, b)
      ensures a == b
    {
      OneLivePerLogin(f, a, b);
    }
  }

  // ---- the version fence ----

  /** A token a refresh could still be granted on, expiry aside. */
  ghost predicate Usable(db: Db, id: Id) {
    && id in db.tokens && !db.tokens[id].revoked
    && db.tokens[id].userId in db.users
    && db.users[db.tokens[id].userId].tokenVersion == db.tokens[id].tokenVersion
  }

  predicate Older(t: Token, u: Id, version: nat) {
    t.userId == u && t.tokenVersion < version
  }

  /**
   * Since `start`, an older row was exchanged only by a request that had already
   * read it then, and only such requests can still exchange one.
   */
  ghost predicate Fenced(start: State, s: State, u: Id)
    requires u in start.db.users
  {
    var version := start.db.users[u].tokenVersion;
    && start.exchanged <= s.exchanged
    && (forall r | r in s.pending && s.pending[r].Exchanging? && Older(s.pending[r].held, u, version) ::
          r in start.pending && start.pending[r] == s.pending[r])
    && (forall k | |start.exchanged| <= k < |s.exchanged| && Older(s.exchanged[k], u, version) ::
          exists r :: r in start.pending && start.pending[r] == Exchanging(s.exchanged[k]))
  }

  lemma FenceStep(start: State, s: State, step: Step, u: Id)
    requires u in start.db.users && u in s.db.users
    requires start.db.users[u].tokenVersion <= s.db.users[u].tokenVersion
    requires Fenced(start, s, u)
    ensures Fenced(start, Next(s, step), u)
  {
    hide FindByHash, Transact, Execute, UpdateTokens;
  }

  lemma {:induction false} FenceRun(start: State, s: State, steps: seq<Step>, u: Id)
    requires Inv(s) && u in start.db.users && Grows(start.db, s.db) && Fenced(start, s, u)
    ensures Fenced(start, Run(s, steps), u)
    decreases |steps|
  {
    if steps != [] {
      StepKeeps(s, steps[0]);
      FenceStep(start, s, steps[0], u);
      GrowsTrans(start.db, s.db, Next(s, steps[0]).db);
      FenceRun(start, Next(s, steps[0]), steps[1..], u);
    }
  }

  lemma GrowsTrans(a: Db, b: Db, c: Db)
    requires Grows(a, b) && Grows(b, c)
    ensures Grows(a, c)
  {
  }

  /**
   * The fence: from any state on, no refresh that reads later succeeds on a row
   * older than the user's version, and no such row is usable, not even one that
   * a refresh in flight has yet to write.
   */
  lemma VersionFence(s: State, steps: seq<Step>, u: Id)
    requires Inv(s) && u in s.db.users
    ensures Fenced(s, Run(s, steps), u)
    ensures var db := Run(s, steps).db;
            forall id | id in db.tokens && Older(db.tokens[id], u, s.db.users[u].tokenVersion) :: !Usable(db, id)
  {
    GrowsRefl(s.db);
    FenceRun(s, s, steps, u);
    RunKeeps(s, steps);
  }

  /** Presenting a token that was already exchanged raises the alarm, and so does losing a race for one. */
  lemma ReuseRaisesAlarm(s: State, step: Step)
    requires Inv(s)
    ensures step.ReadToken? && step.request !in s.pending
            && FindByHash(s.db.tokens, step.hash).Some?
            && FindByHash(s.db.tokens, step.hash).value.replacedBy.Some? ==>
              Next(s, step).pending == s.pending[step.request :=
                Bumping(FindByHash(s.db.tokens, step.hash).value.userId)]
    ensures step.Exchange? && step.request in s.pending && s.pending[step.request].Exchanging?
            && step.id !in s.db.tokens && !HashTaken(s.db.tokens, step.hash) ==>
              var held := s.pending[step.request].held;
              if s.db.tokens[held.id].revoked then
                Next(s, step) == s.(pending := s.pending[step.request := Bumping(held.userId)], clock := s.clock + 1)
              else
                Next(s, step).exchanged == s.exchanged + [held]
  {
    if step.ReadToken? && FindByHash(s.db.tokens, step.hash).Some? {
      FoundFact(s, step.hash);
    }
    if step.Exchange? && step.request in s.pending && s.pending[step.request].Exchanging?
       && step.id !in s.db.tokens && !HashTaken(s.db.tokens, step.hash) {
      var held := s.pending[step.request].held;
      PendingFact(s, step.request);
      RowFact(s, held.id);
      RotationOutcome(s.db, held.id,
                      Fresh(s, step.id, step.hash, held.userId, held.tokenVersion, step.expiresAt), s.clock);
    }
  }

  /** A chain with one row behind its user's version has no usable row. */
  lemma OutdatedChain(s: State, id: Id, other: Id)
    requires Inv(s) && id in s.db.tokens && other in s.db.tokens && Root(s, other) == Root(s, id)
    requires s.db.tokens[id].userId in s.db.users
    requires s.db.tokens[id].tokenVersion < s.db.users[s.db.tokens[id].userId].tokenVersion
    ensures !Usable(s.db, other)
  {
    RootIsLogin(s, other);
    RootIsLogin(s, id);
  }

  /** After the version is raised, every row the user had is behind it for good. */
  lemma BumpOutdates(s: State, r: Id, steps: seq<Step>, id: Id)
    requires Inv(s) && r in s.pending && s.pending[r].Bumping?
    requires id in s.db.tokens && s.db.tokens[id].userId == s.pending[r].userId
    ensures var f := Run(Next(s, Bump(r)), steps);
            && Inv(f)
            && id in f.db.tokens && f.db.tokens[id].userId in f.db.users
            && f.db.tokens[id].tokenVersion < f.db.users[f.db.tokens[id].userId].tokenVersion
  {
    PendingFact(s, r);
    RowFact(s, id);
    StepKeeps(s, Bump(r));
    BumpRaises(s, r);
    RunKeeps(Next(s, Bump(r)), steps);
    hide Inv, Next, Run;
  }

  lemma BumpRaises(s: State, r: Id)
    requires r in s.pending && s.pending[r].Bumping? && s.pending[r].userId in s.db.users
    ensures var (u, users) := (s.pending[r].userId, Next(s, Bump(r)).db.users);
            u in users && users[u].tokenVersion == s.db.users[u].tokenVersion + 1
  {
  }

  /**
   * Once the alarm's first step has run, nothing in the chain of any of the user's
   * tokens is usable ever again, whether or not the second step is reached.
   */
  lemma AlarmKillsChain(s: State, r: Id, steps: seq<Step>, id: Id, other: Id)
    requires Inv(s) && r in s.pending && s.pending[r].Bumping?
    requires id in s.db.tokens && s.db.tokens[id].userId == s.pending[r].userId
    ensures var f := Run(Next(s, Bump(r)), steps);
            && Inv(f) && id in f.db.tokens
            && (other in f.db.tokens && Root(f, other) == Root(f, id) ==> !Usable(f.db, other))
  {
    hide Next, Inv, Usable;
    BumpOutdates(s, r, steps, id);
    var f := Run(Next(s, Bump(r)), steps);
    if other in f.db.tokens && Root(f, other) == Root(f, id) {
      OutdatedChain(f, id, other);
    }
  }
}
