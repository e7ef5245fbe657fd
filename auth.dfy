/** The passkey strategy's callbacks and its `verify` step, run against the
    user and authenticator tables. The WebAuthn ceremony itself (challenge,
    signature check) happens before `verify` and is not part of this model. */
module Auth {
  import opened Wrappers
  import opened Text
  import opened Schema
  import opened Repository

  // ---------------------------------------------------------------------
  // Relying party identity
  // ---------------------------------------------------------------------

  /** A request URL, already parsed: `port` is empty for the scheme's default port. */
  datatype RequestUrl = RequestUrl(scheme: string, hostname: string, port: string, pathname: string)

  /** The relying party ID is the request's hostname. */
  function RpId(url: RequestUrl): (id: string)
    ensures id == url.hostname
  {
    url.hostname
  }

  /** The request's origin: scheme, "://", host, and ":port" when the port
      is not the default; the path is dropped. */
  function Origin(url: RequestUrl): (origin: string)
    ensures StartsWith(origin, url.scheme + "://" + RpId(url))
    ensures url.port == "" ==> origin == url.scheme + "://" + RpId(url)
    ensures url.port != "" ==> origin == url.scheme + "://" + RpId(url) + ":" + url.port
  {
    var prefix := url.scheme + "://" + url.hostname;
    var origin := prefix + (if url.port == "" then "" else ":" + url.port);
    assert origin[..|prefix|] == prefix;
    origin
  }

  // ---------------------------------------------------------------------
  // Strategy callbacks
  // ---------------------------------------------------------------------

  /** `getUserDetails`: the user's id and username, or null for no user. */
  function GetUserDetails(user: Option<AuthUser>): (details: Option<AuthUser>)
    ensures details.Some? <==> user.Some?
    ensures details.Some? ==> details.value.id == user.value.id && details.value.username == user.value.username
  {
    match user
    case None => None
    case Some(u) => Some(AuthUser(u.id, u.username))
  }

  /** An authenticator as the strategy wants it: `transports` as a list. */
  datatype AuthenticatorView = AuthenticatorView(row: AuthenticatorRow, transports: seq<string>)

  function View(row: AuthenticatorRow): (v: AuthenticatorView)
    ensures v.row == row && Join(v.transports, ",") == row.transports
    ensures forall t :: t in v.transports ==> !Contains(t, ",")
    ensures |v.transports| >= 1
  {
    SplitJoin(row.transports, ",");
    SplitPiecesFree(row.transports, ",");
    AuthenticatorView(row, Split(row.transports, ","))
  }

  /** The list is exactly JavaScript's `split(",")` of the column, an
      empty column giving `[""]`: View's contract leaves no other choice. */
  lemma TransportsAreSplit(row: AuthenticatorRow)
    ensures View(row).transports == Split(row.transports, ",")
  {
    SplitUnique(View(row).transports, ",");
  }

  /** `getUserAuthenticators`: the rows owned by the user (by the id `''`
      when there is no user), each with its transports split on ",". */
  method UserAuthenticators(db: Database, user: Option<AuthUser>) returns (views: seq<AuthenticatorView>)
    requires db.Valid()
    ensures var rows := OwnedBy(db.authenticators, if user.Some? then user.value.id else "");
            |views| == |rows| && forall i :: 0 <= i < |views| ==> views[i] == View(rows[i])
    ensures user.None? ==> views == []
  {
    var userId := if user.Some? then user.value.id else "";
    var rows := db.GetUserAuthenticators(userId);
    views := seq(|rows|, i requires 0 <= i < |rows| => View(rows[i]));
    if user.None? {
      NoOwnerNoRows(db.authenticators, db.users, "");
    }
  }

  // ---------------------------------------------------------------------
  // verify
  // ---------------------------------------------------------------------

  datatype Ceremony = Registration | Authentication

  datatype VerifyError =
    | AlreadyRegistered
    | UsernameRequired
    | UserAlreadyExists
    | AuthenticatorNotFound
    | UserNotFound
    | Storage(cause: DbError)

  /** The message each thrown error carries; a storage failure carries the
      database's own message, which is not modelled. */
  function ErrorMessage(e: VerifyError): (message: Option<string>)
    ensures message.None? <==> e.Storage?
    ensures e == AlreadyRegistered ==> message == Some("Authenticator has already been registered.")
    ensures e == UsernameRequired ==> message == Some("Username is required.")
    ensures e == UserAlreadyExists ==> message == Some("User already exists.")
    ensures e == AuthenticatorNotFound ==> message == Some("Authenticator not found")
    ensures e == UserNotFound ==> message == Some("User not found")
  {
    match e
    case AlreadyRegistered => Some("Authenticator has already been registered.")
    case UsernameRequired => Some("Username is required.")
    case UserAlreadyExists => Some("User already exists.")
    case AuthenticatorNotFound => Some("Authenticator not found")
    case UserNotFound => Some("User not found")
    case Storage(_) => None
  }

  /** `!username`: a missing or empty username. */
  predicate NoUsername(username: Option<string>)
  {
    username.None? || username.value == ""
  }

  /** Some user already has this username. */
  ghost predicate UsernameTaken(users: map<string, UserRow>, username: string)
  {
    exists k :: k in users && users[k].username == username
  }

  /** The `verify` callback. `newUserId` is the id the generator would give a
      new user and `now` the insert time.
      Registration: a known credential, a missing username and a taken
      username each fail and write nothing; otherwise one user and one
      authenticator owned by it are inserted and the new user is returned.
      Authentication: an unknown credential fails; otherwise the owner of the
      first row with that credential is returned; nothing is written. */
  method Verify(db: Database, authenticator: NewAuthenticator, ceremony: Ceremony,
                username: Option<string>, newUserId: string, now: string)
    returns (r: Result<AuthUser, VerifyError>)
    requires db.Valid()
    requires |newUserId| == UserIdLength
    modifies db
    ensures db.Valid()
    ensures !(ceremony.Registration? && r.Ok?) ==>
              db.users == old(db.users) && db.authenticators == old(db.authenticators)
    // registration
    ensures ceremony.Registration? && FindCredential(old(db.authenticators), authenticator.credentialID).Some? ==>
              r == Err(AlreadyRegistered)
    ensures ceremony.Registration? && FindCredential(old(db.authenticators), authenticator.credentialID).None? &&
            NoUsername(username) ==>
              r == Err(UsernameRequired)
    ensures ceremony.Registration? && FindCredential(old(db.authenticators), authenticator.credentialID).None? &&
            !NoUsername(username) && UsernameTaken(old(db.users), username.value) ==>
              r == Err(UserAlreadyExists)
    ensures ceremony.Registration? && FindCredential(old(db.authenticators), authenticator.credentialID).None? &&
            !NoUsername(username) && !UsernameTaken(old(db.users), username.value) ==>
              if newUserId in old(db.users) then r == Err(Storage(PrimaryKeyViolation))
              else r == Ok(AuthUser(newUserId, username.value))
    ensures ceremony.Registration? && r.Ok? ==>
              username.Some? &&
              db.users == old(db.users)[newUserId := UserRow(newUserId, username.value, now)] &&
              db.authenticators == old(db.authenticators) + [WithOwner(authenticator, newUserId, now)]
    ensures CredentialIdsUnique(old(db.authenticators)) ==> CredentialIdsUnique(db.authenticators)
    // authentication
    ensures ceremony.Authentication? && FindCredential(old(db.authenticators), authenticator.credentialID).None? ==>
              r == Err(AuthenticatorNotFound)
    ensures ceremony.Authentication? && FindCredential(old(db.authenticators), authenticator.credentialID).Some? ==>
              var owner := db.authenticators[FindCredential(db.authenticators, authenticator.credentialID).value].userId;
              if owner in db.users then r == Ok(Identity(db.users[owner])) else r == Err(UserNotFound)
    // the foreign key leaves "User not found" unreachable
    ensures r != Err(UserNotFound)
  {
    var saved := db.GetAuthenticatorById(authenticator.credentialID);
    var user: Option<AuthUser> := None;
    if ceremony.Registration? {
      if saved.Some? {
        return Err(AlreadyRegistered);
      }
      if NoUsername(username) {
        return Err(UsernameRequired);
      }
      var existing := db.GetUserByUsername(username.value);
      if existing.Some? {
        return Err(UserAlreadyExists);
      }
      var created := db.CreateUser(username.value, newUserId, now);
      if created.Err? {
        return Err(Storage(created.error));
      }
      user := Some(created.value);
      var linked := db.CreateAuthenticator(authenticator, created.value.id, now);
      assert linked.Ok?;
      if CredentialIdsUnique(old(db.authenticators)) {
        AppendFreshCredential(old(db.authenticators), WithOwner(authenticator, newUserId, now));
      }
    } else if ceremony.Authentication? {
      if saved.None? {
        return Err(AuthenticatorNotFound);
      }
      var owner := db.GetUserById(saved.value.userId);
      if owner.Some? {
        user := Some(Identity(owner.value));
      }
    }
    if user.None? {
      return Err(UserNotFound);
    }
    return Ok(user.value);
  }

  /** Registering a credential, then registering the same credential again
      under any username: the first succeeds, the second is refused and
      writes nothing. */
  method RegisterTwice(db: Database, authenticator: NewAuthenticator,
                       firstName: string, secondName: Option<string>,
                       firstId: string, secondId: string, now: string)
    returns (first: Result<AuthUser, VerifyError>, second: Result<AuthUser, VerifyError>)
    requires db.Valid()
    requires |firstId| == UserIdLength && |secondId| == UserIdLength
    modifies db
    ensures first.Ok? ==> second == Err(AlreadyRegistered)
    ensures first.Ok? ==> db.users == old(db.users)[firstId := UserRow(firstId, firstName, now)]
  {
    first := Verify(db, authenticator, Registration, Some(firstName), firstId, now);
    second := Verify(db, authenticator, Registration, secondName, secondId, now);
    if first.Ok? {
      FindCredentialAppend(old(db.authenticators), WithOwner(authenticator, firstId, now), authenticator.credentialID);
    }
  }
}
