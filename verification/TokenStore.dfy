// The in-memory store behind the authentication service: records are objects on
// the heap, each reachable through two maps. No method writes to a record, so
// an update replaces it in both maps and a shallow snapshot is enough to roll back.

module TokenStore {
  import opened Sums
  import opened TokenDb

  class Record<T> {
    var value: T

    constructor (value: T)
      ensures this.value == value
    {
      this.value := value;
    }
  }

  /** What the records under a map say. */
  ghost function Values<T>(byId: map<Id, Record<T>>): map<Id, T>
    reads byId.Values
  {
    map id | id in byId :: byId[id].value
  }

  /** Both user maps hold the very same records, each under its own key. */
  ghost predicate UsersAgree(byId: map<Id, Record<User>>, byEmail: map<string, Record<User>>)
    reads byId.Values, byEmail.Values
  {
    && (forall id :: id in byId ==>
          && byId[id].value.id == id
          && byId[id].value.email in byEmail
          && byEmail[byId[id].value.email] == byId[id])
    && (forall email :: email in byEmail ==>
          && byEmail[email].value.email == email
          && byEmail[email].value.id in byId
          && byId[byEmail[email].value.id] == byEmail[email])
  }

  ghost predicate TokensAgree(byId: map<Id, Record<Token>>, byHash: map<string, Record<Token>>)
    reads byId.Values, byHash.Values
  {
    && (forall id :: id in byId ==>
          && byId[id].value.id == id
          && byId[id].value.hash in byHash
          && byHash[byId[id].value.hash] == byId[id])
    && (forall hash :: hash in byHash ==>
          && byHash[hash].value.hash == hash
          && byHash[hash].value.id in byId
          && byId[byHash[hash].value.id] == byHash[hash])
  }

  /** Setting one record under both its keys, new or replaced, keeps the token maps in agreement. */
  lemma SetToken(byId: map<Id, Record<Token>>, byHash: map<string, Record<Token>>, record: Record<Token>)
    requires TokensAgree(byId, byHash)
    requires var t := record.value;
             if t.id in byId then t.id in Values(byId) && Values(byId)[t.id].hash == t.hash else t.hash !in byHash
    ensures TokensAgree(byId[record.value.id := record], byHash[record.value.hash := record])
    ensures Values(byId[record.value.id := record]) == Values(byId)[record.value.id := record.value]
  {
  }

  lemma SetUser(byId: map<Id, Record<User>>, byEmail: map<string, Record<User>>, record: Record<User>)
    requires UsersAgree(byId, byEmail)
    requires var u := record.value;
             if u.id in byId then byId[u.id].value.email == u.email else u.email !in byEmail
    ensures UsersAgree(byId[record.value.id := record], byEmail[record.value.email := record])
    ensures Values(byId[record.value.id := record]) == Values(byId)[record.value.id := record.value]
  {
  }

  /** What the maps give for an id or a hash, in terms of the contents. */
  lemma TokenAt(byId: map<Id, Record<Token>>, byHash: map<string, Record<Token>>)
    requires TokensAgree(byId, byHash)
    ensures Values(byId).Keys == byId.Keys
    ensures forall id :: id in byId ==> byId[id].value == Values(byId)[id] && Values(byId)[id].id == id
    ensures forall hash :: hash in byHash <==> HashTaken(Values(byId), hash)
    ensures forall hash :: hash in byHash ==>
              var t := byHash[hash].value;
              t.hash == hash && t.id in Values(byId) && Values(byId)[t.id] == t
  {
    forall hash | hash in byHash ensures HashTaken(Values(byId), hash) {
      assert Values(byId)[byHash[hash].value.id].hash == hash;
    }
  }

  lemma SameKeys<T>(byId: map<Id, Record<T>>)
    ensures Values(byId).Keys == byId.Keys
  {
  }

  lemma RecordAt(byId: map<Id, Record<Token>>, byHash: map<string, Record<Token>>, id: Id)
    requires TokensAgree(byId, byHash) && id in byId
    ensures id in Values(byId) && byId[id].value == Values(byId)[id] && Values(byId)[id].id == id
  {
  }

  lemma HashesUnique(byId: map<Id, Record<Token>>, byHash: map<string, Record<Token>>)
    requires TokensAgree(byId, byHash)
    ensures var tokens := Values(byId);
            forall a, b :: a in tokens && b in tokens && tokens[a].hash == tokens[b].hash ==> a == b
  {
  }

  lemma UserAt(byId: map<Id, Record<User>>, byEmail: map<string, Record<User>>)
    requires UsersAgree(byId, byEmail)
    ensures Values(byId).Keys == byId.Keys
    ensures forall id :: id in byId ==> byId[id].value == Values(byId)[id] && Values(byId)[id].id == id
  {
  }

  /** A new user under an e-mail in use leaves the earlier record reachable by id alone. */
  lemma TakenEmail(byId: map<Id, Record<User>>, byEmail: map<string, Record<User>>, record: Record<User>)
    requires UsersAgree(byId, byEmail) && record.value.id !in byId && record.value.email in byEmail
    ensures !UsersAgree(byId[record.value.id := record], byEmail[record.value.email := record])
    ensures Values(byId[record.value.id := record]) == Values(byId)[record.value.id := record.value]
  {
    var (ids, emails) := (byId[record.value.id := record], byEmail[record.value.email := record]);
    var earlier := byEmail[record.value.email];
    assert ids[earlier.value.id] == earlier && emails[earlier.value.email] == record;
    assert earlier.value.id != record.value.id;
  }

  class PrismaServiceMock {
    var usersById: map<Id, Record<User>>
    var usersByEmail: map<string, Record<User>>
    var tokensById: map<Id, Record<Token>>
    var tokensByHash: map<string, Record<Token>>

    ghost predicate Valid()
      reads this, usersById.Values, usersByEmail.Values, tokensById.Values, tokensByHash.Values
    {
      UsersAgree(usersById, usersByEmail) && TokensAgree(tokensById, tokensByHash)
    }

    ghost function Contents(): Db
      reads this, usersById.Values, tokensById.Values
    {
      Db(Values(usersById), Values(tokensById))
    }

    constructor ()
      ensures Valid() && Contents() == Db(map[], map[])
    {
      usersById, usersByEmail, tokensById, tokensByHash := map[], map[], map[], map[];
    }

    /** Creating a user keeps the maps in agreement exactly when the email is new: nothing checks it. */
    method CreateUser(id: Id, email: string) returns (user: User)
      requires Valid() && id !in usersById
      modifies this`usersById, this`usersByEmail
      ensures user == User(id, email, 0)
      ensures Contents() == old(Contents()).(users := old(Contents()).users[id := user])
      ensures Valid() <==> email !in old(usersByEmail)
    {
      hide UsersAgree, TokensAgree, Values;
      user := User(id, email, 0);
      var record := new Record(user);
      if email in usersByEmail {
        TakenEmail(usersById, usersByEmail, record);
      } else {
        SetUser(usersById, usersByEmail, record);
      }
      usersById := usersById[id := record];
      usersByEmail := usersByEmail[email := record];
    }

    method FindUser(id: Option<Id>, email: Option<string>) returns (user: Option<User>)
      requires Valid()
      ensures id.Some? && id.value != "" ==>
                user == if id.value in Contents().users then Some(Contents().users[id.value]) else None
      ensures (id.None? || id.value == "") && user.Some? ==>
                email == Some(user.value.email) && user.value.id in Contents().users
                && Contents().users[user.value.id] == user.value
      ensures (id.None? || id.value == "") && user.None? && email.Some? && email.value != "" ==>
                forall i :: i in Contents().users ==> Contents().users[i].email != email.value
    {
      if id.Some? && id.value != "" {
        return if id.value in usersById then Some(usersById[id.value].value) else None;
      }
      if email.Some? && email.value != "" {
        return if email.value in usersByEmail then Some(usersByEmail[email.value].value) else None;
      }
      return None;
    }

    method BumpUser(id: Id, amount: nat) returns (error: Option<TxError>)
      requires Valid()
      modifies this`usersById, this`usersByEmail
      ensures Valid()
      ensures Follows(old(Contents()), Statement.BumpUser(id, amount), Contents(), error)
      ensures Contents().tokens == old(Contents()).tokens
      ensures if id in old(Contents()).users then
                var user := old(Contents()).users[id];
                && error == None
                && Contents().users
                   == old(Contents()).users[id := User(user.id, user.email, user.tokenVersion + amount)]
              else error == Some(UserNotFound) && Contents().users == old(Contents()).users
    {
      hide UsersAgree, TokensAgree, Values;
      UserAt(usersById, usersByEmail);
      if id !in usersById {
        return Some(UserNotFound);
      }
      var existing := usersById[id].value;
      var record := new Record(existing.(tokenVersion := existing.tokenVersion + amount));
      SetUser(usersById, usersByEmail, record);
      usersById := usersById[id := record];
      usersByEmail := usersByEmail[record.value.email := record];
      return None;
    }

    /** A fresh record under both keys, in place of the one with the same id if there is one. */
    method SetTokenRecord(token: Token)
      requires TokensAgree(tokensById, tokensByHash)
      requires if token.id in tokensById
               then token.id in Values(tokensById) && Values(tokensById)[token.id].hash == token.hash
               else token.hash !in tokensByHash
      modifies this`tokensById, this`tokensByHash
      ensures TokensAgree(tokensById, tokensByHash)
      ensures Values(tokensById) == old(Values(tokensById))[token.id := token]
      ensures tokensById.Keys == old(tokensById).Keys + {token.id}
    {
      hide TokensAgree, Values;
      var record := new Record(token);
      SetToken(tokensById, tokensByHash, record);
      tokensById := tokensById[token.id := record];
      tokensByHash := tokensByHash[token.hash := record];
    }

    method CreateToken(token: Token) returns (error: Option<TxError>)
      requires Valid() && token.id !in tokensById
      modifies this`tokensById, this`tokensByHash
      ensures Valid()
      ensures Follows(old(Contents()), Statement.CreateToken(token), Contents(), error)
      ensures tokensById.Keys == old(tokensById).Keys + if error.None? then {token.id} else {}
      ensures Contents().users == old(Contents()).users
      ensures if exists id :: id in old(Contents()).tokens && old(Contents()).tokens[id].hash == token.hash
              then error == Some(UniqueViolation) && Contents().tokens == old(Contents()).tokens
              else error == None && Contents().tokens == old(Contents()).tokens[token.id := token]
    {
      hide UsersAgree, TokensAgree, Values;
      TokenAt(tokensById, tokensByHash);
      if token.hash in tokensByHash {
        return Some(UniqueViolation);
      }
      SetTokenRecord(token);
      return None;
    }

    /** The row with this hash, of which there is at most one, and its user. */
    method FindToken(hash: string) returns (token: Option<Token>, user: Option<User>)
      requires Valid()
      ensures token.None? ==> forall id :: id in Contents().tokens ==> Contents().tokens[id].hash != hash
      ensures token.Some? ==>
                && token.value.id in Contents().tokens
                && Contents().tokens[token.value.id] == token.value
                && token.value.hash == hash
                && forall id :: id in Contents().tokens && Contents().tokens[id].hash == hash ==> id == token.value.id
      ensures user == if token.Some? && token.value.userId in Contents().users
                      then Some(Contents().users[token.value.userId]) else None
    {
      TokenAt(tokensById, tokensByHash);
      UserAt(usersById, usersByEmail);
      HashesUnique(tokensById, tokensByHash);
      hide UsersAgree, TokensAgree, Values;
      if hash !in tokensByHash {
        return None, None;
      }
      var found := tokensByHash[hash].value;
      return Some(found), if found.userId in usersById then Some(usersById[found.userId].value) else None;
    }

    /** One turn of `UpdateTokens`: a row that matches is replaced by its patched copy. */
    method Visit(id: Id, w: Where, p: Patch) returns (hit: bool)
      requires TokensAgree(tokensById, tokensByHash) && id in tokensById
      modifies this`tokensById, this`tokensByHash
      ensures TokensAgree(tokensById, tokensByHash)
      ensures tokensById.Keys == old(tokensById).Keys && id in old(Values(tokensById))
      ensures hit == Hits(w, old(Values(tokensById))[id])
      ensures Values(tokensById)
           == if hit then old(Values(tokensById))[id := Patched(old(Values(tokensById))[id], p)]
              else old(Values(tokensById))
    {
      hide TokensAgree, Values;
      RecordAt(tokensById, tokensByHash, id);
      var record := tokensById[id].value;
      hit := Hits(w, record);
      if hit {
        SetTokenRecord(Patched(record, p));
      }
    }

    /** Changes exactly the matching rows, and returns their number. */
    method UpdateTokens(w: Where, p: Patch) returns (count: nat)
      requires Valid()
      modifies this`tokensById, this`tokensByHash
      ensures Valid()
      ensures Contents() == TokenDb.UpdateTokens(old(Contents()), w, p)
      ensures count == |Matching(old(Contents()).tokens, w)|
      ensures tokensById.Keys == old(tokensById).Keys
      ensures Updated(old(Contents()), Contents(), w, p) && count == |Selection(old(Contents()).tokens, w)|
    {
      hide UsersAgree, TokensAgree, Values, Halfway, TokenDb.UpdateTokens, Matching, Hits, Patched, Updated, Selection;
      count := 0;
      ghost var before := Values(tokensById);
      var pending := tokensById.Keys;
      SameKeys(tokensById);
      VisitNone(before, w, p);
      while pending != {}
        invariant TokensAgree(tokensById, tokensByHash)
        invariant tokensById.Keys == before.Keys && pending <= before.Keys
        invariant Halfway(before, w, p, pending, count, Values(tokensById))
        decreases pending
      {
        var id :| id in pending;
        Unvisited(before, w, p, pending, id, count, Values(tokensById));
        ghost var now := Values(tokensById);
        var hit := Visit(id, w, p);
        VisitOne(before, w, p, pending, id, count, now);
        if hit {
          count := count + 1;
        }
        pending := pending - {id};
      }
      VisitAll(old(Contents()), w, p, count, Values(tokensById));
      UpdatesExactly(old(Contents()), w, p);
    }

    method Restore(users: map<Id, Record<User>>, emails: map<string, Record<User>>,
                   tokens: map<Id, Record<Token>>, hashes: map<string, Record<Token>>)
      requires UsersAgree(users, emails) && TokensAgree(tokens, hashes)
      modifies this
      ensures Valid() && Contents() == Db(Values(users), Values(tokens))
    {
      usersById, usersByEmail, tokensById, tokensByHash := users, emails, tokens, hashes;
    }

    /** Runs the statements in turn; whatever makes one throw, the contents are as before. */
    method Transaction(statements: seq<Statement>) returns (error: Option<TxError>)
      requires Valid() && FreshIds(statements, tokensById.Keys)
      modifies this
      ensures Valid()
      ensures match Transact(old(Contents()), statements)
              case Done(db) => error == None && Contents() == db
              case Threw(e) => error == Some(e) && Contents() == old(Contents())
    {
      hide UsersAgree, TokensAgree, Values, Transact, FreshIds, Execute;
      var (users, emails, tokens, hashes) := (usersById, usersByEmail, tokensById, tokensByHash);
      ghost var before := Contents();
      assert UsersAgree(users, emails) && TokensAgree(tokens, hashes);
      assert before == Db(Values(users), Values(tokens));
      hide Valid, Contents;
      var i := 0;
      error := None;
      while i < |statements|
        invariant 0 <= i <= |statements|
        invariant Valid() && error == None
        invariant UsersAgree(users, emails) && TokensAgree(tokens, hashes)
        invariant before == Db(Values(users), Values(tokens))
        invariant FreshIds(statements[i..], tokensById.Keys)
        invariant Transact(before, statements) == Transact(Contents(), statements[i..])
      {
        TransactStep(Contents(), statements, i);
        FreshHead(statements, i, tokensById.Keys);
        ghost var taken := tokensById.Keys;
        error := Run(statements[i]);
        if error.Some? {
          Restore(users, emails, tokens, hashes);
          return;
        }
        FreshTail(statements, i, taken, tokensById.Keys);
        i := i + 1;
      }
      TransactStep(Contents(), statements, i);
    }

    method Run(st: Statement) returns (error: Option<TxError>)
      requires Valid() && (st.CreateToken? ==> st.token.id !in tokensById)
      modifies this
      ensures match Execute(old(Contents()), st)
              case Done(db) => error == None && Valid() && Contents() == db
              case Threw(e) => error == Some(e)
      ensures tokensById.Keys <= old(tokensById).Keys + if st.CreateToken? then {st.token.id} else {}
    {
      match st
      case CreateToken(token) => error := CreateToken(token);
      case BumpUser(id, amount) => error := BumpUser(id, amount);
      case ChangeTokens(w, p, expected) =>
        var count := UpdateTokens(w, p);
        error := if expected.Some? && count != expected.value then Some(ReuseDetected) else None;
    }
  }

  lemma TransactStep(db: Db, statements: seq<Statement>, i: nat)
    requires i <= |statements|
    ensures Transact(db, statements[i..])
         == if i == |statements| then Done(db)
            else
              var first := Execute(db, statements[i]);
              if first.Threw? then first else Transact(first.db, statements[i + 1..])
  {
    if i < |statements| {
      assert statements[i..][1..] == statements[i + 1..];
    }
  }

  lemma FreshHead(statements: seq<Statement>, i: nat, taken: set<Id>)
    requires i < |statements| && FreshIds(statements[i..], taken)
    ensures statements[i].CreateToken? ==> statements[i].token.id !in taken
  {
    assert statements[i..][0] == statements[i];
  }

  lemma FreshTail(statements: seq<Statement>, i: nat, taken: set<Id>, now: set<Id>)
    requires i < |statements| && FreshIds(statements[i..], taken)
    requires now <= taken + if statements[i].CreateToken? then {statements[i].token.id} else {}
    ensures FreshIds(statements[i + 1..], now)
  {
    var rest := statements[i + 1..];
    assert forall k :: 0 <= k < |rest| ==> rest[k] == statements[i..][k + 1];
    assert statements[i..][0] == statements[i];
  }

  /** What one statement did to the contents. */
  ghost predicate Follows(before: Db, st: Statement, after: Db, error: Option<TxError>) {
    match Execute(before, st)
    case Done(db) => error == None && after == db
    case Threw(e) => error == Some(e) && after == before
  }

  function PatchedOn(tokens: map<Id, Token>, hit: set<Id>, p: Patch): map<Id, Token> {
    map id | id in tokens :: if id in hit then Patched(tokens[id], p) else tokens[id]
  }

  /** The rows still pending are untouched; the matching ones among the rest are patched and counted. */
  ghost predicate Halfway(tokens: map<Id, Token>, w: Where, p: Patch, pending: set<Id>, count: nat, now: map<Id,
                          Token>) {
    var hits := Matching(tokens, w) - pending;
    count == |hits| && now == PatchedOn(tokens, hits, p)
  }

  lemma VisitNone(tokens: map<Id, Token>, w: Where, p: Patch)
    ensures Halfway(tokens, w, p, tokens.Keys, 0, tokens)
  {
    assert {} == Matching(tokens, w) - tokens.Keys;
  }

  lemma Unvisited(tokens: map<Id, Token>, w: Where, p: Patch, pending: set<Id>, id: Id, count: nat, now: map<Id, Token>)
    requires Halfway(tokens, w, p, pending, count, now) && id in pending && id in tokens
    ensures id in now && now[id] == tokens[id]
  {
  }

  /** One turn of the loop: `id` is taken from what is pending. */
  lemma VisitOne(tokens: map<Id, Token>, w: Where, p: Patch, pending: set<Id>, id: Id, count: nat, now: map<Id, Token>)
    requires Halfway(tokens, w, p, pending, count, now) && id in pending && id in tokens
    ensures if Hits(w, tokens[id])
            then Halfway(tokens, w, p, pending - {id}, count + 1, now[id := Patched(tokens[id], p)])
            else Halfway(tokens, w, p, pending - {id}, count, now)
  {
    var hits := Matching(tokens, w) - pending;
    var after := Matching(tokens, w) - (pending - {id});
    assert after == if Hits(w, tokens[id]) then hits + {id} else hits;
  }

  lemma VisitAll(db: Db, w: Where, p: Patch, count: nat, now: map<Id, Token>)
    requires Halfway(db.tokens, w, p, {}, count, now)
    ensures TokenDb.UpdateTokens(db, w, p) == db.(tokens := now) && count == |Matching(db.tokens, w)|
  {
    assert Matching(db.tokens, w) - {} == Matching(db.tokens, w);
  }

  predicate FreshIds(statements: seq<Statement>, taken: set<Id>) {
    && (forall i :: 0 <= i < |statements| && statements[i].CreateToken? ==> statements[i].token.id !in taken)
    && (forall i, j :: 0 <= i < j < |statements| && statements[i].CreateToken? && statements[j].CreateToken? ==>
          statements[i].token.id != statements[j].token.id)
  }
}
