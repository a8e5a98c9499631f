// What each access of the refresh-token protocol does, row by row and field by field, and
// what a revocation is worth: no refresh is ever granted on a revoked row.

module SessionRules {
  import opened Sums
  import opened TokenDb
  import opened TokenRotation

  // ---- what a revocation writes ----

  /** `t` revoked at `now`, and otherwise as it was. */
  function RevokedAt(t: Token, now: int): Token {
    Token(t.id, t.hash, t.userId, t.tokenVersion, t.expiresAt, true, Some(now), t.replacedBy, t.createdAt)
  }

  /** The live rows of one user are revoked at `now`; no other row changed, came or went. */
  ghost predicate RevokesUser(a: map<Id, Token>, b: map<Id, Token>, userId: Id, now: int) {
    && b.Keys == a.Keys
    && forall id :: id in a ==>
      b[id] == if a[id].userId == userId && !a[id].revoked then RevokedAt(a[id], now) else a[id]
  }

  /** The live row of one token is revoked at `now`; no other row changed, came or went. */
  ghost predicate RevokesToken(a: map<Id, Token>, b: map<Id, Token>, hash: string, now: int) {
    && b.Keys == a.Keys
    && forall id :: id in a ==> b[id] == if a[id].hash == hash && !a[id].revoked then RevokedAt(a[id], now) else a[id]
  }

  /** One user's version is one higher; nothing else about any user changed. */
  ghost predicate Raises(a: map<Id, User>, b: map<Id, User>, userId: Id) {
    userId in a && b == a[userId := User(a[userId].id, a[userId].email, a[userId].tokenVersion + 1)]
  }

  lemma UserRevocation(db: Db, userId: Id, now: int)
    ensures var w := EVERYWHERE.(userId := Some(userId), revoked := Some(false));
            var after := UpdateTokens(db, w, RevokePatch(now));
            after.users == db.users && RevokesUser(db.tokens, after.tokens, userId, now)
  {
  }

  lemma TokenRevocation(db: Db, hash: string, now: int)
    ensures var w := EVERYWHERE.(hash := Some(hash), revoked := Some(false));
            var after := UpdateTokens(db, w, RevokePatch(now));
            after.users == db.users && RevokesToken(db.tokens, after.tokens, hash, now)
  {
  }

  // ---- the accesses ----

  /** A logout first raises its user's version, and drops out if the user is gone. */
  lemma BumpExactly(s: State, r: Id)
    requires r in s.pending && s.pending[r].Bumping?
    ensures var (u, s') := (s.pending[r].userId, Next(s, Bump(r)));
            && s'.db.tokens == s.db.tokens && s'.clock == s.clock + 1
            && s'.logins == s.logins && s'.exchanged == s.exchanged
            && if u in s.db.users
               then Raises(s.db.users, s'.db.users, u) && s'.pending == s.pending[r := Revoking(u)]
               else s'.db.users == s.db.users && s'.pending == s.pending - {r}
  {
  }

  /** It then revokes that user's live rows, and nobody else's. */
  lemma RevokeAllExactly(s: State, r: Id)
    requires r in s.pending && s.pending[r].Revoking?
    ensures var s' := Next(s, RevokeAll(r));
            && s' == s.(db := s'.db, pending := s.pending - {r}, clock := s.clock + 1)
            && s'.db.users == s.db.users
            && RevokesUser(s.db.tokens, s'.db.tokens, s.pending[r].userId, s.clock)
  {
    UserRevocation(s.db, s.pending[r].userId, s.clock);
    hide RevokesUser, UpdateTokens;
  }

  /** Revoking one token revokes its live row, and no other. */
  lemma RevokeOneExactly(s: State, hash: string)
    ensures var s' := Next(s, RevokeOne(hash));
            && s' == s.(db := s'.db, clock := s.clock + 1)
            && s'.db.users == s.db.users
            && RevokesToken(s.db.tokens, s'.db.tokens, hash, s.clock)
  {
    TokenRevocation(s.db, hash, s.clock);
    hide RevokesToken, UpdateTokens;
  }

  ghost predicate NoHash(tokens: map<Id, Token>, hash: string) {
    forall id :: id in tokens ==> tokens[id].hash != hash
  }

  lemma NoHashIs(tokens: map<Id, Token>, hash: string)
    ensures NoHash(tokens, hash) <==> !HashTaken(tokens, hash)
    ensures NoHash(tokens, hash) ==> FindByHash(tokens, hash) == None
  {
  }

  lemma FoundRow(s: State, id: Id)
    requires Inv(s) && id in s.db.tokens
    ensures FindByHash(s.db.tokens, s.db.tokens[id].hash) == Some(s.db.tokens[id])
    ensures s.db.tokens[id].userId in s.db.users
  {
    RowFact(s, id);
  }

  /**
   * Reading a row lets the refresh go on exactly when it is unrevoked, unexpired and of its user's version,
   * raises the alarm exactly when it was exchanged before, and ends it otherwise.
   */
  lemma ReadExactly(s: State, r: Id, id: Id)
    requires Inv(s) && r !in s.pending && id in s.db.tokens
    ensures var (t, s') := (s.db.tokens[id], Next(s, ReadToken(r, s.db.tokens[id].hash)));
            && t.userId in s.db.users
            && s' == s.(pending := s'.pending, clock := s.clock + 1)
            && s'.pending
               == if !t.revoked && t.expiresAt > s.clock && s.db.users[t.userId].tokenVersion == t.tokenVersion
                  then s.pending[r := Exchanging(t)]
                  else if t.revoked && t.replacedBy.Some? then s.pending[r := Bumping(t.userId)]
                  else s.pending
  {
    FoundRow(s, id);
    hide FindByHash, Inv;
  }

  /** A secret that is no row's changes nothing. */
  lemma UnknownToken(s: State, r: Id, hash: string)
    requires r !in s.pending && NoHash(s.db.tokens, hash)
    ensures Next(s, ReadToken(r, hash)) == s.(clock := s.clock + 1)
  {
    NoHashIs(s.db.tokens, hash);
    hide FindByHash;
  }

  /**
   * Of the refreshes that read a row in time, the one that finds it unrevoked still writes its successor and
   * claims it; one that finds it revoked raises the alarm; a secret already in use ends it.
   */
  lemma ExchangeExactly(s: State, r: Id, id: Id, hash: string, expiresAt: int)
    requires Inv(s) && r in s.pending && s.pending[r].Exchanging? && id !in s.db.tokens
    ensures s.pending[r].held.id in s.db.tokens
    ensures var (held, s') := (s.pending[r].held, Next(s, Exchange(r, id, hash, expiresAt)));
            var row := s.db.tokens[held.id];
            && s'.clock == s.clock + 1 && s'.logins == s.logins
            && if NoHash(s.db.tokens, hash) && !row.revoked then
                 && s'.pending == s.pending - {r} && s'.exchanged == s.exchanged + [held]
                 && s'.db == Db(s.db.users,
                                s.db.tokens[id := Token(id, hash, row.userId, row.tokenVersion, expiresAt,
                                                        false, None, None, s.clock)]
                                           [held.id := RevokedAt(row, s.clock).(replacedBy := Some(id))])
               else
                 && s'.db == s.db && s'.exchanged == s.exchanged
                 && s'.pending == if NoHash(s.db.tokens, hash) then s.pending[r := Bumping(row.userId)]
                                  else s.pending - {r}
  {
    var held := s.pending[r].held;
    PendingFact(s, r);
    RowFact(s, held.id);
    NoHashIs(s.db.tokens, hash);
    RotationOutcome(s.db, held.id, Fresh(s, id, hash, held.userId, held.tokenVersion, expiresAt), s.clock);
    hide Inv, NoHash, HashTaken, Transact;
  }

  /** A login writes one live row of the version it read, unless the secret is in use. */
  lemma LoginExactly(s: State, r: Id, id: Id, hash: string, expiresAt: int)
    requires r in s.pending && s.pending[r].LoggingIn? && id !in s.db.tokens
    ensures var (p, s') := (s.pending[r], Next(s, WriteLogin(r, id, hash, expiresAt)));
            && s'.clock == s.clock + 1 && s'.exchanged == s.exchanged && s'.pending == s.pending - {r}
            && s'.db.users == s.db.users
            && if NoHash(s.db.tokens, hash) then
                 && s'.logins == s.logins + {id}
                 && s'.db.tokens
                    == s.db.tokens[id := Token(id, hash, p.userId, p.version, expiresAt, false, None, None, s.clock)]
               else s'.logins == s.logins && s'.db.tokens == s.db.tokens
  {
    NoHashIs(s.db.tokens, hash);
    hide NoHash, HashTaken;
  }

  /** How requests start, end and die; a new user starts at version 0. */
  lemma StartsExactly(s: State, r: Id, user: User)
    ensures Next(s, Crash(r)) == s.(pending := s.pending - {r}, clock := s.clock + 1)
    ensures r !in s.pending && user.id in s.db.users ==>
              && Next(s, ReadUser(r, user.id))
                 == s.(pending := s.pending[r := LoggingIn(user.id, s.db.users[user.id].tokenVersion)],
                       clock := s.clock + 1)
              && Next(s, StartLogoutAll(r, user.id))
                 == s.(pending := s.pending[r := Bumping(user.id)], clock := s.clock + 1)
    ensures Next(s, Register(user))
         == s.(db := Db(if user.id in s.db.users then s.db.users
                        else s.db.users[user.id := User(user.id, user.email, 0)], s.db.tokens),
               clock := s.clock + 1)
  {
  }

  // ---- what a revocation is worth ----

  /** `id` was not exchanged since `count` exchanges were on record. */
  predicate NotSince(exchanged: seq<Token>, count: nat, id: Id) {
    count <= |exchanged| && forall i :: count <= i < |exchanged| ==> exchanged[i].id != id
  }

  lemma OthersExchangeNothing(s: State, step: Step)
    requires !step.Exchange?
    ensures Next(s, step).exchanged == s.exchanged
  {
    hide FindByHash, HashTaken, Execute, UpdateTokens, AfterRead;
  }

  lemma ExchangesNotRevoked(s: State, step: Step, id: Id)
    requires Inv(s) && step.Exchange? && id in s.db.tokens && s.db.tokens[id].revoked
    ensures NotSince(Next(s, step).exchanged, |s.exchanged|, id) && s.exchanged <= Next(s, step).exchanged
  {
    hide Inv, HashTaken, Transact;
    if step.request in s.pending && s.pending[step.request].Exchanging? && step.id !in s.db.tokens {
      ExchangeExactly(s, step.request, step.id, step.hash, step.expiresAt);
    }
  }

  lemma RevokedStays(a: Db, b: Db, id: Id)
    requires Grows(a, b) && id in a.tokens && a.tokens[id].revoked
    ensures id in b.tokens && b.tokens[id].revoked && b.tokens[id].hash == a.tokens[id].hash
  {
  }

  lemma StepNotExchanged(s: State, step: Step, id: Id)
    requires Inv(s) && id in s.db.tokens && s.db.tokens[id].revoked
    ensures NotSince(Next(s, step).exchanged, |s.exchanged|, id) && s.exchanged <= Next(s, step).exchanged
    ensures id in Next(s, step).db.tokens && Next(s, step).db.tokens[id].revoked
    ensures Next(s, step).db.tokens[id].hash == s.db.tokens[id].hash
  {
    hide Inv, Next, Grows;
    StepKeeps(s, step);
    RevokedStays(s.db, Next(s, step).db, id);
    if step.Exchange? { ExchangesNotRevoked(s, step, id); } else { OthersExchangeNothing(s, step); }
  }

  /** A revoked row is never exchanged again, not even by a refresh that read it before it was revoked. */
  lemma {:induction false} RevokedNeverExchanged(s: State, steps: seq<Step>, id: Id)
    requires Inv(s) && id in s.db.tokens && s.db.tokens[id].revoked
    ensures var f := Run(s, steps);
            && Inv(f) && NotSince(f.exchanged, |s.exchanged|, id) && s.exchanged <= f.exchanged
            && id in f.db.tokens && f.db.tokens[id].revoked && f.db.tokens[id].hash == s.db.tokens[id].hash
    decreases |steps|
  {
    hide Inv, Next;
    if steps != [] {
      StepKeeps(s, steps[0]);
      StepNotExchanged(s, steps[0], id);
      RevokedNeverExchanged(Next(s, steps[0]), steps[1..], id);
    }
  }

  /**
   * Revoking a token ends it: its row, if it was live, is revoked as of now and replaced by nothing, and in
   * every continuation no refresh is granted on it, neither one in flight nor one that reads it later.
   */
  lemma RevocationLasts(s: State, id: Id, steps: seq<Step>, r: Id)
    requires Inv(s) && id in s.db.tokens
    ensures var (t, s1) := (s.db.tokens[id], Next(s, RevokeOne(s.db.tokens[id].hash)));
            && id in s1.db.tokens && s1.db.tokens[id] == (if t.revoked then t else RevokedAt(t, s.clock))
            && (!t.revoked ==> s1.db.tokens[id].replacedBy == None)
            && s1.db.users == s.db.users && s1.db.tokens.Keys == s.db.tokens.Keys
            && (forall other :: other in s.db.tokens && other != id ==> s1.db.tokens[other] == s.db.tokens[other])
            && s1.exchanged == s.exchanged
            && var f := Run(s1, steps);
            && NotSince(f.exchanged, |s.exchanged|, id)
            && (r !in f.pending ==>
                  var late := Next(f, ReadToken(r, t.hash)).pending;
                  r in late ==> late[r].Bumping?)
  {
    var (t, s1) := (s.db.tokens[id], Next(s, RevokeOne(s.db.tokens[id].hash)));
    RevokeOneExactly(s, t.hash);
    RowFact(s, id);
    OneRowPerHash(s);
    StepKeeps(s, RevokeOne(t.hash));
    RevokedNeverExchanged(s1, steps, id);
    var f := Run(s1, steps);
    if r !in f.pending {
      ReadExactly(f, r, id);
    }
    hide Inv, Next, Run;
  }

  lemma OneRowPerHash(s: State)
    requires Inv(s)
    ensures forall a, b :: a in s.db.tokens && b in s.db.tokens && s.db.tokens[a].hash == s.db.tokens[b].hash ==> a == b
  {
  }
}
