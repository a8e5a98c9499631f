// The authentication service over the in-memory store. Run alone, each request
// does exactly what the protocol's steps do for a single request.

module AuthService {
  import opened Sums
  import opened TokenDb
  import opened TokenStore
  import opened SessionRules
  import TokenRotation

  datatype Denial = Invalid | Revoked | Expired | Outdated | Reuse | StoreError(error: TxError)

  datatype Verdict = Granted | Denied(denial: Denial)

  /** The protocol with nobody else in it. */
  ghost function Idle(db: Db, clock: nat): TokenRotation.State {
    TokenRotation.State(db, map[], clock, {}, [])
  }

  const ME: Id := "request"

  ghost function RefreshSteps(hash: string, id: Id, newHash: string, expiresAt: int): seq<TokenRotation.Step> {
    [TokenRotation.ReadToken(ME, hash), TokenRotation.Exchange(ME, id, newHash, expiresAt),
     TokenRotation.Bump(ME), TokenRotation.RevokeAll(ME)]
  }

  /** What `logoutAll` leaves behind. */
  ghost function LoggedOut(db: Db, userId: Id, now: nat): Db
    requires userId in db.users
  {
    var bumped := db.(users := db.users[userId :=
                    db.users[userId].(tokenVersion := db.users[userId].tokenVersion + 1)]);
    UpdateTokens(bumped, EVERYWHERE.(userId := Some(userId), revoked := Some(false)), RevokePatch(now))
  }

  /** What a refresh alone leaves behind, and whether it is granted. */
  ghost function Refreshed(db: Db, clock: nat, hash: string, id: Id, newHash: string, expiresAt: int): (Db, bool)
    requires id !in db.tokens
  {
    var found := TokenRotation.FindByHash(db.tokens, hash);
    if found.None? then (db, false)
    else
      var t := found.value;
      var next := TokenRotation.AfterRead(db, t, clock);
      if next.None? then (db, false)
      else if next.value.Bumping? then (LoggedOut(db, t.userId, clock + 3), false)
      else if HashTaken(db.tokens, newHash) then (db, false)
      else
        var rotated := Token(id, newHash, t.userId, t.tokenVersion, expiresAt, false, None, None, clock + 1);
        var claimed := t.(revoked := true, revokedAt := Some(clock + 1), replacedBy := Some(id));
        (db.(tokens := db.tokens[id := rotated][t.id := claimed]), true)
  }

  lemma Unroll(s: TokenRotation.State, steps: seq<TokenRotation.Step>)
    requires steps != []
    ensures TokenRotation.Run(s, steps) == TokenRotation.Run(TokenRotation.Next(s, steps[0]), steps[1..])
  {
  }

  /** The protocol's run of a lone refresh, step by step. */
  lemma RefreshAlone(db: Db, clock: nat, hash: string, id: Id, newHash: string, expiresAt: int)
    requires id !in db.tokens && forall i :: i in db.tokens ==> db.tokens[i].id == i
    ensures var f := TokenRotation.Run(Idle(db, clock), RefreshSteps(hash, id, newHash, expiresAt));
            (f.db, f.exchanged != []) == Refreshed(db, clock, hash, id, newHash, expiresAt)
  {
    var s0 := Idle(db, clock);
    var steps := RefreshSteps(hash, id, newHash, expiresAt);
    var s1 := TokenRotation.Next(s0, steps[0]);
    var s2 := TokenRotation.Next(s1, steps[1]);
    var s3 := TokenRotation.Next(s2, steps[2]);
    var s4 := TokenRotation.Next(s3, steps[3]);
    assert TokenRotation.Run(s0, steps) == s4 by {
      Unroll(s0, steps);
      assert steps[1..] == [steps[1], steps[2], steps[3]];
      Unroll(s1, steps[1..]);
      assert steps[1..][1..] == [steps[2], steps[3]];
      Unroll(s2, [steps[2], steps[3]]);
      assert [steps[2], steps[3]][1..] == [steps[3]];
      Unroll(s3, [steps[3]]);
    }
    var found := TokenRotation.FindByHash(db.tokens, hash);
    if found.Some? && TokenRotation.AfterRead(db, found.value, clock).Some? {
      var t := found.value;
      assert s1.pending == map[ME := TokenRotation.AfterRead(db, t, clock).value];
      if s1.pending[ME].Exchanging? {
        RotationOutcome(db, t.id, TokenRotation.Fresh(s1, id, newHash, t.userId, t.tokenVersion, expiresAt), s1.clock);
        assert s2.pending == map[];
        assert s4.db == s2.db;
      } else {
        assert s2.db == db && s2.pending == s1.pending;
        assert s4.db == LoggedOut(db, t.userId, clock + 3);
      }
    } else {
      assert s1.pending == map[];
      assert s4.db == db && s4.exchanged == [];
    }
  }

  /**
   * What presenting the row `t` comes to: a live, unexpired row of its user's version is claimed by a new row under
   * a new secret; a row exchanged before logs its user out everywhere; nothing else changes anything.
   */
  ghost predicate RefreshOutcome(a: Db, b: Db, t: Token, clock: nat, id: Id, newHash: string, expiresAt: int,
                                 granted: bool) {
    var good := && t.userId in a.users && a.users[t.userId].tokenVersion == t.tokenVersion
                && !t.revoked && t.expiresAt > clock && NoHash(a.tokens, newHash);
    && granted == good
    && if good then
         b == Db(a.users, a.tokens[id := Token(id, newHash, t.userId, t.tokenVersion, expiresAt,
                                               false, None, None, clock + 1)]
                                  [t.id := RevokedAt(t, clock + 1).(replacedBy := Some(id))])
       else if t.userId in a.users && t.revoked && t.replacedBy.Some? then
         Raises(a.users, b.users, t.userId) && RevokesUser(a.tokens, b.tokens, t.userId, clock + 3)
       else b == a
  }

  /** The reply, in the order of the checks. */
  ghost function Reply(db: Db, t: Token, clock: nat, newHash: string): Verdict {
    if t.userId !in db.users then Denied(Invalid)
    else if t.revoked then Denied(if t.replacedBy.Some? then Reuse else Revoked)
    else if t.expiresAt <= clock then Denied(Expired)
    else if db.users[t.userId].tokenVersion != t.tokenVersion then Denied(Outdated)
    else if !NoHash(db.tokens, newHash) then Denied(StoreError(UniqueViolation))
    else Granted
  }

  lemma LoggedOutIs(db: Db, userId: Id, now: nat)
    requires userId in db.users
    ensures var after := LoggedOut(db, userId, now);
            Raises(db.users, after.users, userId) && RevokesUser(db.tokens, after.tokens, userId, now)
  {
    var bumped := db.(users := db.users[userId :=
                    db.users[userId].(tokenVersion := db.users[userId].tokenVersion + 1)]);
    UserRevocation(bumped, userId, now);
    hide RevokesUser, UpdateTokens;
  }

  lemma FoundIs(db: Db, hash: string, t: Token)
    requires t.id in db.tokens && db.tokens[t.id] == t && t.hash == hash
    requires forall id :: id in db.tokens && db.tokens[id].hash == hash ==> id == t.id
    ensures TokenRotation.FindByHash(db.tokens, hash) == Some(t)
  {
  }

  /** The result of a refresh, check by check. */
  lemma RefreshedIs(db: Db, clock: nat, hash: string, id: Id, newHash: string, expiresAt: int, t: Token)
    requires id !in db.tokens && TokenRotation.FindByHash(db.tokens, hash) == Some(t)
    ensures Refreshed(db, clock, hash, id, newHash, expiresAt)
         == if t.userId !in db.users then (db, false)
            else if t.revoked then (if t.replacedBy.Some? then LoggedOut(db, t.userId, clock + 3) else db, false)
            else if t.expiresAt <= clock || db.users[t.userId].tokenVersion != t.tokenVersion
                    || HashTaken(db.tokens, newHash) then (db, false)
            else
              var rotated := Token(id, newHash, t.userId, t.tokenVersion, expiresAt, false, None, None, clock + 1);
              var claimed := t.(revoked := true, revokedAt := Some(clock + 1), replacedBy := Some(id));
              (db.(tokens := db.tokens[id := rotated][t.id := claimed]), true)
  {
    hide LoggedOut, HashTaken, TokenRotation.FindByHash;
  }

  lemma RefreshedExactly(db: Db, clock: nat, hash: string, id: Id, newHash: string, expiresAt: int, t: Token)
    requires id !in db.tokens && TokenRotation.FindByHash(db.tokens, hash) == Some(t)
    ensures var (after, granted) := Refreshed(db, clock, hash, id, newHash, expiresAt);
            RefreshOutcome(db, after, t, clock, id, newHash, expiresAt, granted)
  {
    hide NoHash, HashTaken, LoggedOut, Raises, RevokesUser, TokenRotation.FindByHash;
    NoHashIs(db.tokens, newHash);
    RefreshedIs(db, clock, hash, id, newHash, expiresAt, t);
    if t.userId in db.users { LoggedOutIs(db, t.userId, clock + 3); }
  }

  lemma FoundNone(db: Db, hash: string)
    requires NoHash(db.tokens, hash)
    ensures TokenRotation.FindByHash(db.tokens, hash) == None
  {
  }

  lemma RotationFresh(oldId: Id, rotated: Token, now: int, taken: set<Id>)
    requires rotated.id !in taken
    ensures FreshIds(Rotation(oldId, rotated, now), taken)
  {
  }

  lemma LoginAlone(db: Db, clock: nat, user: User, id: Id, hash: string, expiresAt: int)
    requires id !in db.tokens
    ensures var s := Idle(db, clock).(pending := map[ME := TokenRotation.LoggingIn(user.id, user.tokenVersion)]);
            var t := Token(id, hash, user.id, user.tokenVersion, expiresAt, false, None, None, clock);
            var result := Execute(db, CreateToken(t));
            TokenRotation.Next(s, TokenRotation.WriteLogin(ME, id, hash, expiresAt)).db
            == if result.Done? then result.db else db
  {
  }

  class AuthService {
    const store: PrismaServiceMock
    var clock: nat

    constructor (store: PrismaServiceMock)
      ensures this.store == store && clock == 0
    {
      this.store := store;
      clock := 0;
    }

    /** `user` is whatever validation read earlier; its version may be stale by now. */
    method Login(user: User, id: Id, hash: string, expiresAt: int) returns (error: Option<TxError>)
      requires store.Valid() && id !in store.tokensById
      modifies this, store
      ensures store.Valid() && clock == old(clock) + 1
      ensures var s := Idle(old(store.Contents()), old(clock)).(pending :=
                         map[ME := TokenRotation.LoggingIn(user.id, user.tokenVersion)]);
              store.Contents() == TokenRotation.Next(s, TokenRotation.WriteLogin(ME, id, hash, expiresAt)).db
      ensures store.Contents().users == old(store.Contents()).users
      ensures error == None <==> NoHash(old(store.Contents()).tokens, hash)
      ensures store.Contents().tokens
           == if error == None
              then old(store.Contents()).tokens[id := Token(id, hash, user.id, user.tokenVersion, expiresAt,
                                                            false, None, None, old(clock))]
              else old(store.Contents()).tokens
    {
      hide UsersAgree, TokensAgree, Values, Execute, TokenRotation.Next;
      SameKeys(store.tokensById);
      LoginAlone(store.Contents(), clock, user, id, hash, expiresAt);
      error := store.CreateToken(Token(id, hash, user.id, user.tokenVersion, expiresAt, false, None, None, clock));
      clock := clock + 1;
    }

    method Refresh(hash: string, id: Id, newHash: string, expiresAt: int) returns (verdict: Verdict)
      requires store.Valid() && id !in store.tokensById
      modifies this, store
      ensures store.Valid() && clock == old(clock) + 4
      ensures id !in old(store.Contents()).tokens
      ensures (store.Contents(), verdict.Granted?)
           == Refreshed(old(store.Contents()), old(clock), hash, id, newHash, expiresAt)
      ensures NoHash(old(store.Contents()).tokens, hash) ==>
                verdict == Denied(Invalid) && store.Contents() == old(store.Contents())
      ensures forall i :: i in old(store.Contents()).tokens && old(store.Contents()).tokens[i].hash == hash ==>
                && verdict == Reply(old(store.Contents()), old(store.Contents()).tokens[i], old(clock), newHash)
                && RefreshOutcome(old(store.Contents()), store.Contents(), old(store.Contents()).tokens[i], old(clock),
                                  id, newHash, expiresAt, verdict.Granted?)
    {
      hide UsersAgree, TokensAgree, Values, LoggedOut, Transact, Execute, FreshIds, HashTaken, TokenRotation.FindByHash,
           TokenRotation.AfterRead, Raises, RevokesUser, RefreshOutcome;
      var now := clock;
      clock := clock + 4;
      SameKeys(store.tokensById);
      ghost var db := store.Contents();
      var found, user := store.FindToken(hash);
      if found.None? {
        assert store.Contents() == db;
        FoundNone(db, hash);
        return Denied(Invalid);
      }
      var existing := found.value;
      FoundIs(db, hash, existing);
      RefreshedIs(db, now, hash, id, newHash, expiresAt, existing);
      RefreshedExactly(db, now, hash, id, newHash, expiresAt, existing);
      NoHashIs(db.tokens, newHash);
      hide NoHash;
      hide Refreshed;
      if user.None? {
        return Denied(Invalid);
      }
      var version := user.value.tokenVersion;
      if existing.revoked {
        if existing.replacedBy.Some? {
          LogoutAll(existing.userId, now + 3);
          return Denied(Reuse);
        }
        return Denied(Revoked);
      }
      if existing.expiresAt <= now {
        return Denied(Expired);
      }
      if version != existing.tokenVersion {
        return Denied(Outdated);
      }
      var rotated := Token(id, newHash, existing.userId, version, expiresAt, false, None, None, now + 1);
      verdict := Rotate(existing, rotated, now);
    }

    /** The transaction and what follows its failure. A lost race is a reuse; alone, there is none. */
    method Rotate(existing: Token, rotated: Token, now: nat) returns (verdict: Verdict)
      requires store.Valid() && rotated.id !in store.tokensById
      requires existing.id in store.Contents().tokens && store.Contents().tokens[existing.id] == existing
      modifies store
      ensures store.Valid()
      ensures !existing.revoked ==>
                if HashTaken(old(store.Contents()).tokens, rotated.hash)
                then verdict == Denied(StoreError(UniqueViolation)) && store.Contents() == old(store.Contents())
                else
                  var claimed := existing.(revoked := true, revokedAt := Some(now + 1), replacedBy := Some(rotated.id));
                  && verdict == Granted
                  && store.Contents().users == old(store.Contents()).users
                  && store.Contents().tokens
                     == old(store.Contents()).tokens[rotated.id := rotated][existing.id := claimed]
    {
      hide UsersAgree, TokensAgree, Values, LoggedOut, Transact, Execute, FreshIds, HashTaken, Rotation;
      TokenAt(store.tokensById, store.tokensByHash);
      RotationOutcome(store.Contents(), existing.id, rotated, now + 1);
      RotationFresh(existing.id, rotated, now + 1, store.tokensById.Keys);
      var error := store.Transaction(Rotation(existing.id, rotated, now + 1));
      if error.None? {
        return Granted;
      }
      if error.value.ReuseDetected? {
        LogoutAll(existing.userId, now + 3);
      }
      return Denied(StoreError(error.value));
    }

    method RevokeRefreshToken(hash: string)
      requires store.Valid()
      modifies this, store
      ensures store.Valid()
      ensures store.Contents() == TokenRotation.Next(Idle(old(store.Contents()), old(clock)),
                                                     TokenRotation.RevokeOne(hash)).db
      ensures store.Contents().users == old(store.Contents()).users
      ensures RevokesToken(old(store.Contents()).tokens, store.Contents().tokens, hash, old(clock))
    {
      hide UsersAgree, TokensAgree, Values, RevokesToken;
      TokenRevocation(store.Contents(), hash, clock);
      var count := store.UpdateTokens(EVERYWHERE.(hash := Some(hash), revoked := Some(false)), RevokePatch(clock));
      clock := clock + 1;
    }

    /** A user that is gone makes the first statement throw, before anything is revoked. */
    method LogoutAll(userId: Id, now: nat)
      requires store.Valid()
      modifies store
      ensures store.Valid()
      ensures if userId in old(store.Contents()).users
              then store.Contents() == LoggedOut(old(store.Contents()), userId, now)
              else store.Contents() == old(store.Contents())
      ensures userId in old(store.Contents()).users ==>
                && Raises(old(store.Contents()).users, store.Contents().users, userId)
                && RevokesUser(old(store.Contents()).tokens, store.Contents().tokens, userId, now)
    {
      hide UsersAgree, TokensAgree, Values, TokenDb.UpdateTokens, RevokesUser;
      UserAt(store.usersById, store.usersByEmail);
      var error := store.BumpUser(userId, 1);
      if error.None? {
        UserRevocation(store.Contents(), userId, now);
        var count := store.UpdateTokens(EVERYWHERE.(userId := Some(userId), revoked := Some(false)), RevokePatch(now));
      }
    }
  }
}
