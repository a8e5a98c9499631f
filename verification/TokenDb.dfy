// Users and refresh tokens as a database value, with the atomic operations the
// authentication service asks of it.

module TokenDb {
  import opened Sums

  type Id = string

  datatype User = User(id: Id, email: string, tokenVersion: nat)

  /** `hash` is the stored digest of the secret, which stands for the secret itself. */
  datatype Token = Token(
    id: Id, hash: string, userId: Id, tokenVersion: nat, expiresAt: int,
    revoked: bool, revokedAt: Option<int>, replacedBy: Option<Id>, createdAt: nat)

  datatype Db = Db(users: map<Id, User>, tokens: map<Id, Token>)

  datatype Where = Where(id: Option<Id>, userId: Option<Id>, hash: Option<string>, revoked: Option<bool>)

  datatype Patch = Patch(revoked: Option<bool>, revokedAt: Option<int>, replacedBy: Option<Id>)

  predicate Hits(w: Where, t: Token) {
    && (w.id.Some? ==> t.id == w.id.value)
    && (w.userId.Some? ==> t.userId == w.userId.value)
    && (w.hash.Some? ==> t.hash == w.hash.value)
    && (w.revoked.Some? ==> t.revoked == w.revoked.value)
  }

  /** Absent fields keep the old value, as `??` does. */
  function Patched(t: Token, p: Patch): Token {
    t.(revoked := if p.revoked.Some? then p.revoked.value else t.revoked,
       revokedAt := if p.revokedAt.Some? then p.revokedAt else t.revokedAt,
       replacedBy := if p.replacedBy.Some? then p.replacedBy else t.replacedBy)
  }

  function Matching(tokens: map<Id, Token>, w: Where): set<Id> {
    set id | id in tokens && Hits(w, tokens[id])
  }

  function UpdateTokens(db: Db, w: Where, p: Patch): Db {
    db.(tokens := map id | id in db.tokens ::
          if Hits(w, db.tokens[id]) then Patched(db.tokens[id], p) else db.tokens[id])
  }

  /** Every field the filter gives is the row's own. */
  predicate Selects(w: Where, t: Token) {
    && (w.id == None || w.id == Some(t.id))
    && (w.userId == None || w.userId == Some(t.userId))
    && (w.hash == None || w.hash == Some(t.hash))
    && (w.revoked == None || w.revoked == Some(t.revoked))
  }

  /** `after` has the fields the patch gives, and the rest of `t`. */
  predicate Takes(t: Token, p: Patch, after: Token) {
    && after.(revoked := t.revoked, revokedAt := t.revokedAt, replacedBy := t.replacedBy) == t
    && (if p.revoked == None then after.revoked == t.revoked else p.revoked == Some(after.revoked))
    && after.revokedAt == (if p.revokedAt == None then t.revokedAt else p.revokedAt)
    && after.replacedBy == (if p.replacedBy == None then t.replacedBy else p.replacedBy)
  }

  /** The selected rows take the patch; no other row and no user changed, came or went. */
  ghost predicate Updated(before: Db, after: Db, w: Where, p: Patch) {
    && after.users == before.users && after.tokens.Keys == before.tokens.Keys
    && forall id :: id in before.tokens ==>
      if Selects(w, before.tokens[id]) then Takes(before.tokens[id], p, after.tokens[id])
      else after.tokens[id] == before.tokens[id]
  }

  function Selection(tokens: map<Id, Token>, w: Where): set<Id> {
    set id | id in tokens && Selects(w, tokens[id])
  }

  lemma SelectsExactly(w: Where, t: Token)
    ensures Hits(w, t) <==> Selects(w, t)
  {
  }

  lemma TakesExactly(t: Token, p: Patch)
    ensures Takes(t, p, Patched(t, p))
  {
  }

  /** An update gives the selected rows what the patch holds, and leaves everything else alone. */
  lemma UpdatesExactly(db: Db, w: Where, p: Patch)
    ensures Updated(db, UpdateTokens(db, w, p), w, p)
    ensures Matching(db.tokens, w) == Selection(db.tokens, w)
  {
    hide Hits, Selects, Patched, Takes;
    forall id | id in db.tokens
      ensures Hits(w, db.tokens[id]) <==> Selects(w, db.tokens[id])
      ensures Takes(db.tokens[id], p, Patched(db.tokens[id], p))
    {
      SelectsExactly(w, db.tokens[id]);
      TakesExactly(db.tokens[id], p);
    }
  }

  predicate HashTaken(tokens: map<Id, Token>, hash: string) {
    exists id :: id in tokens && tokens[id].hash == hash
  }

  datatype TxError = UniqueViolation | UserNotFound | ReuseDetected

  /** One statement of a transaction; a count other than the expected one makes the caller throw. */
  datatype Statement =
    | CreateToken(token: Token)
    | ChangeTokens(w: Where, p: Patch, expected: Option<nat>)
    | BumpUser(userId: Id, amount: nat)

  datatype TxResult = Done(db: Db) | Threw(error: TxError)

  function Execute(db: Db, st: Statement): TxResult {
    match st
    case CreateToken(t) =>
      if HashTaken(db.tokens, t.hash) then Threw(UniqueViolation) else Done(db.(tokens := db.tokens[t.id := t]))
    case ChangeTokens(w, p, expected) =>
      if expected.Some? && |Matching(db.tokens, w)| != expected.value then Threw(ReuseDetected)
      else Done(UpdateTokens(db, w, p))
    case BumpUser(u, amount) =>
      if u !in db.users then Threw(UserNotFound)
      else Done(db.(users := db.users[u := db.users[u].(tokenVersion := db.users[u].tokenVersion + amount)]))
  }

  /** All the statements, or none of them. */
  function Transact(db: Db, statements: seq<Statement>): TxResult
    decreases |statements|
  {
    if statements == [] then Done(db)
    else
      var first := Execute(db, statements[0]);
      if first.Threw? then first else Transact(first.db, statements[1..])
  }

  // ---- the service's own statements ----

  const EVERYWHERE := Where(None, None, None, None)

  function RevokePatch(now: int): Patch {
    Patch(Some(true), Some(now), None)
  }

  /** Rotation: write the new row, and claim the old one only if nobody has. */
  function Rotation(oldId: Id, rotated: Token, now: int): seq<Statement> {
    [CreateToken(rotated),
     ChangeTokens(EVERYWHERE.(id := Some(oldId), revoked := Some(false)),
                  Patch(Some(true), Some(now), Some(rotated.id)), Some(1))]
  }

  /** The two ways a rotation can end, and what it leaves behind. */
  lemma RotationOutcome(db: Db, oldId: Id, rotated: Token, now: int)
    requires forall id :: id in db.tokens ==> db.tokens[id].id == id
    requires rotated.id !in db.tokens && oldId in db.tokens
    ensures var r := Transact(db, Rotation(oldId, rotated, now));
            if HashTaken(db.tokens, rotated.hash) then r == Threw(UniqueViolation)
            else if db.tokens[oldId].revoked then r == Threw(ReuseDetected)
            else
              var claimed := db.tokens[oldId].(revoked := true, revokedAt := Some(now), replacedBy := Some(rotated.id));
              r == Done(db.(tokens := db.tokens[rotated.id := rotated][oldId := claimed]))
  {
    var st := Rotation(oldId, rotated, now);
    if !HashTaken(db.tokens, rotated.hash) {
      var created := db.(tokens := db.tokens[rotated.id := rotated]);
      assert Transact(db, st) == Transact(created, st[1..]);
      assert Transact(created, st[1..]) == Execute(created, st[1]) by {
        var r := Execute(created, st[1]);
        assert st[1..][1..] == [];
        assert r.Done? ==> Transact(r.db, []) == r;
      }
      var hit := Matching(created.tokens, st[1].w);
      if db.tokens[oldId].revoked {
        assert hit == {};
      } else {
        assert hit == {oldId};
        var claimed := db.tokens[oldId].(revoked := true, revokedAt := Some(now), replacedBy := Some(rotated.id));
        assert UpdateTokens(created, st[1].w, st[1].p).tokens == created.tokens[oldId := claimed];
      }
    }
  }
}
