/** The D1 database as a class: the `user` table keyed by id and the
    `authenticator` table as a list of rows in insertion order, with the two
    repositories as its methods. */
module Repository {
  import opened Wrappers
  import opened Schema

  /** Length of a generated user id. */
  const UserIdLength: nat := 10

  class Database {
    var users: map<string, UserRow>
    var authenticators: seq<AuthenticatorRow>

    /** The schema's declared constraints hold, and every user id is a
        generated one. */
    ghost predicate Valid()
      reads this
    {
      TablesValid(users, authenticators) &&
      forall id :: id in users ==> |id| == UserIdLength
    }

    constructor ()
      ensures Valid() && users == map[] && authenticators == []
    {
      users := map[];
      authenticators := [];
    }

    // -------------------------------------------------------------------
    // userRepo
    // -------------------------------------------------------------------

    /** The user whose id is `id`, or nothing when no user has it. */
    method GetUserById(id: string) returns (r: Option<UserRow>)
      requires Valid()
      ensures r.Some? ==> r.value in users.Values && r.value.id == id
      ensures r.None? <==> forall k :: k in users ==> users[k].id != id
    {
      r := if id in users then Some(users[id]) else None;
    }

    /** The user whose username is `username`, or nothing when no user has it. */
    method GetUserByUsername(username: string) returns (r: Option<UserRow>)
      ensures r.Some? ==> r.value in users.Values && r.value.username == username
      ensures r.None? <==> forall k :: k in users ==> users[k].username != username
    {
      if exists k :: k in users && users[k].username == username {
        var k :| k in users && users[k].username == username;
        r := Some(users[k]);
      } else {
        r := None;
      }
    }

    /** Inserts one user with the generated id `newId` and returns its id and
        username. The insert fails, changing nothing, when the id is taken
        (primary key) or the username is taken (unique constraint). */
    method CreateUser(username: string, newId: string, now: string) returns (r: Result<AuthUser, DbError>)
      requires Valid()
      requires |newId| == UserIdLength
      modifies this
      ensures Valid()
      ensures authenticators == old(authenticators)
      ensures r.Err? <==> newId in old(users) || exists k :: k in old(users) && old(users)[k].username == username
      ensures r.Err? ==> users == old(users)
      ensures newId in old(users) ==> r == Err(PrimaryKeyViolation)
      ensures newId !in old(users) && r.Err? ==> r.error == UniqueViolation
      ensures r.Ok? ==> r.value == AuthUser(newId, username) &&
                        users == old(users)[newId := UserRow(newId, username, now)]
    {
      if newId in users {
        return Err(PrimaryKeyViolation);
      }
      if exists k :: k in users && users[k].username == username {
        return Err(UniqueViolation);
      }
      users := users[newId := UserRow(newId, username, now)];
      return Ok(AuthUser(newId, username));
    }

    // -------------------------------------------------------------------
    // authenticatorRepo
    // -------------------------------------------------------------------

    /** The first authenticator row with this credential ID, or nothing. */
    method GetAuthenticatorById(credentialID: string) returns (r: Option<AuthenticatorRow>)
      ensures r.Some? ==> r.value in authenticators && r.value.credentialID == credentialID
      ensures r.None? <==> forall i :: 0 <= i < |authenticators| ==> authenticators[i].credentialID != credentialID
      ensures r.Some? ==> exists i :: 0 <= i < |authenticators| && authenticators[i] == r.value &&
                            forall j :: 0 <= j < i ==> authenticators[j].credentialID != credentialID
    {
      match FindCredential(authenticators, credentialID)
      case None => r := None;
      case Some(i) => r := Some(authenticators[i]);
    }

    /** Appends one row carrying every field of `a`, owned by `userId`. The
        insert fails, changing nothing, when no user has that id (foreign key). */
    method CreateAuthenticator(a: NewAuthenticator, userId: string, now: string) returns (r: Result<(), DbError>)
      requires Valid()
      modifies this
      ensures Valid()
      ensures users == old(users)
      ensures r.Ok? <==> userId in users
      ensures r.Ok? ==> authenticators == old(authenticators) + [WithOwner(a, userId, now)]
      ensures r.Err? ==> r.error == ForeignKeyViolation && authenticators == old(authenticators)
    {
      if userId !in users {
        return Err(ForeignKeyViolation);
      }
      authenticators := authenticators + [WithOwner(a, userId, now)];
      return Ok(());
    }

    /** All rows owned by `userId`, in table order, and no others. */
    method GetUserAuthenticators(userId: string) returns (rows: seq<AuthenticatorRow>)
      ensures rows == OwnedBy(authenticators, userId)
      ensures forall row :: row in rows <==> row in authenticators && row.userId == userId
    {
      rows := OwnedBy(authenticators, userId);
    }
  }

  /** After `createUser(u)`, looking `u` up finds the created row. */
  method CreateUserThenFind(db: Database, username: string, newId: string, now: string)
    returns (created: Result<AuthUser, DbError>, found: Option<UserRow>)
    requires db.Valid()
    requires |newId| == UserIdLength
    modifies db
    ensures created.Ok? ==> found == Some(UserRow(newId, username, now))
  {
    created := db.CreateUser(username, newId, now);
    found := db.GetUserByUsername(username);
    if created.Ok? {
      assert newId in db.users && db.users[newId] == UserRow(newId, username, now);
      if found.Some? {
        var k :| k in db.users && db.users[k] == found.value;
        assert k == newId;
      }
    }
  }

  /** After `createAuthenticator(a, uid)`, the credential is found and the
      new row is among `uid`'s authenticators. */
  method CreateAuthenticatorThenFind(db: Database, a: NewAuthenticator, userId: string, now: string)
    returns (created: Result<(), DbError>, byId: Option<AuthenticatorRow>, owned: seq<AuthenticatorRow>)
    requires db.Valid()
    modifies db
    ensures created.Ok? ==> byId.Some? && byId.value.credentialID == a.credentialID
    ensures created.Ok? ==> WithOwner(a, userId, now) in owned
  {
    created := db.CreateAuthenticator(a, userId, now);
    byId := db.GetAuthenticatorById(a.credentialID);
    owned := db.GetUserAuthenticators(userId);
    if created.Ok? {
      assert db.authenticators[|db.authenticators| - 1] == WithOwner(a, userId, now);
    }
  }
}
