/** The two relational tables, their constraints, and the queries run on
    them, as values. `createdAt` holds the database's CURRENT_TIMESTAMP
    default, passed in as `now` wherever a row is inserted. */
module Schema {
  import opened Wrappers

  /** A row of `user`: `id` is the primary key, `username` is unique. */
  datatype UserRow = UserRow(id: string, username: string, createdAt: string)

  /** The `{ id, username }` shape returned by `createUser` and handed to
      the session. */
  datatype AuthUser = AuthUser(id: string, username: string)

  function Identity(u: UserRow): (a: AuthUser)
    ensures a.id == u.id && a.username == u.username
  {
    AuthUser(u.id, u.username)
  }

  /** A row of `authenticator`. `transports` is one text column holding a
      comma-separated list; `credentialID` is indexed but not unique. */
  datatype AuthenticatorRow = AuthenticatorRow(
    credentialID: string,
    userId: string,
    credentialPublicKey: string,
    counter: int,
    credentialDeviceType: string,
    credentialBackedUp: bool,
    transports: string,
    createdAt: string)

  /** An authenticator as the ceremony delivers it: a row without its owner
      and its timestamp. */
  datatype NewAuthenticator = NewAuthenticator(
    credentialID: string,
    credentialPublicKey: string,
    counter: int,
    credentialDeviceType: string,
    credentialBackedUp: bool,
    transports: string)

  /** `{ ...authenticator, userId }` with the timestamp default filled in. */
  function WithOwner(a: NewAuthenticator, userId: string, now: string): (row: AuthenticatorRow)
    ensures row.userId == userId && row.credentialID == a.credentialID
    ensures row.createdAt == now
    ensures NewAuthenticator(row.credentialID, row.credentialPublicKey, row.counter,
                             row.credentialDeviceType, row.credentialBackedUp, row.transports) == a
  {
    AuthenticatorRow(a.credentialID, userId, a.credentialPublicKey, a.counter,
                     a.credentialDeviceType, a.credentialBackedUp, a.transports, now)
  }

  /** What a failed insert reports. */
  datatype DbError = PrimaryKeyViolation | UniqueViolation | ForeignKeyViolation

  // ---------------------------------------------------------------------
  // Table constraints
  // ---------------------------------------------------------------------

  /** Primary key: the users table is keyed by `id`, so no two rows share one. */
  ghost predicate KeyedById(users: map<string, UserRow>)
  {
    forall id :: id in users ==> users[id].id == id
  }

  /** `username` is unique. */
  ghost predicate UsernamesUnique(users: map<string, UserRow>)
  {
    forall a, b :: a in users && b in users && users[a].username == users[b].username ==> a == b
  }

  /** Foreign key: every authenticator's `userId` names a user. */
  ghost predicate OwnersExist(rows: seq<AuthenticatorRow>, users: map<string, UserRow>)
  {
    forall i :: 0 <= i < |rows| ==> rows[i].userId in users
  }

  /** The constraints the schema declares. */
  ghost predicate TablesValid(users: map<string, UserRow>, rows: seq<AuthenticatorRow>)
  {
    KeyedById(users) && UsernamesUnique(users) && OwnersExist(rows, users)
  }

  /** Not declared by the schema: no two authenticators share a credential
      ID. Only the registration check keeps it. */
  ghost predicate CredentialIdsUnique(rows: seq<AuthenticatorRow>)
  {
    forall i, j :: 0 <= i < |rows| && 0 <= j < |rows| && rows[i].credentialID == rows[j].credentialID ==> i == j
  }

  // ---------------------------------------------------------------------
  // Queries over the authenticator table
  // ---------------------------------------------------------------------

  /** `findFirst` by credential ID: the position of the first matching row. */
  function FindCredential(rows: seq<AuthenticatorRow>, credentialID: string): (r: Option<nat>)
    ensures r.Some? ==> r.value < |rows| && rows[r.value].credentialID == credentialID
    ensures r.Some? ==> forall j :: 0 <= j < r.value ==> rows[j].credentialID != credentialID
    ensures r.None? <==> forall j :: 0 <= j < |rows| ==> rows[j].credentialID != credentialID
  {
    if rows == [] then None
    else if rows[0].credentialID == credentialID then Some(0)
    else match FindCredential(rows[1..], credentialID)
      case None => None
      case Some(k) => Some(k + 1)
  }

  /** `findMany` by owner: the rows whose `userId` is `userId`, in table order. */
  function OwnedBy(rows: seq<AuthenticatorRow>, userId: string): (owned: seq<AuthenticatorRow>)
    ensures |owned| <= |rows|
    ensures forall row :: row in owned <==> row in rows && row.userId == userId
  {
    if rows == [] then []
    else (if rows[0].userId == userId then [rows[0]] else []) + OwnedBy(rows[1..], userId)
  }

  /** Appending a row extends exactly its owner's list, by that row. */
  lemma {:induction false} OwnedByAppend(rows: seq<AuthenticatorRow>, row: AuthenticatorRow, userId: string)
    ensures OwnedBy(rows + [row], userId) ==
            OwnedBy(rows, userId) + (if row.userId == userId then [row] else [])
  {
    if rows == [] {
      assert rows + [row] == [row];
      assert OwnedBy([row], userId) == (if row.userId == userId then [row] else []) + OwnedBy([], userId);
    } else {
      var all := rows + [row];
      var head := if rows[0].userId == userId then [rows[0]] else [];
      var tail := if row.userId == userId then [row] else [];
      assert all[0] == rows[0];
      assert all[1..] == rows[1..] + [row];
      calc {
        OwnedBy(all, userId);
        head + OwnedBy(rows[1..] + [row], userId);
        { OwnedByAppend(rows[1..], row, userId); }
        head + (OwnedBy(rows[1..], userId) + tail);
        (head + OwnedBy(rows[1..], userId)) + tail;
        OwnedBy(rows, userId) + tail;
      }
    }
  }

  /** Appending a row leaves every earlier first match where it was; a
      credential ID with no match before now matches the new row. */
  lemma {:induction false} FindCredentialAppend(rows: seq<AuthenticatorRow>, row: AuthenticatorRow, credentialID: string)
    ensures FindCredential(rows + [row], credentialID) ==
            if FindCredential(rows, credentialID).Some? then FindCredential(rows, credentialID)
            else if row.credentialID == credentialID then Some(|rows|)
            else None
  {
    var all := rows + [row];
    assert forall j :: 0 <= j < |rows| ==> all[j] == rows[j];
    assert all[|rows|] == row;
  }

  /** Registration keeps credential IDs distinct: a row whose credential
      matches nothing may be appended without creating a duplicate. */
  lemma AppendFreshCredential(rows: seq<AuthenticatorRow>, row: AuthenticatorRow)
    requires CredentialIdsUnique(rows)
    requires FindCredential(rows, row.credentialID).None?
    ensures CredentialIdsUnique(rows + [row])
  {
    var all := rows + [row];
    forall i, j | 0 <= i < |all| && 0 <= j < |all| && all[i].credentialID == all[j].credentialID
      ensures i == j
    {
    }
  }

  /** Under the foreign key, a user ID that no user has owns no authenticator. */
  lemma NoOwnerNoRows(rows: seq<AuthenticatorRow>, users: map<string, UserRow>, userId: string)
    requires OwnersExist(rows, users)
    requires userId !in users
    ensures OwnedBy(rows, userId) == []
  {
  }
}
