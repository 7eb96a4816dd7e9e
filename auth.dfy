/**
 * Users and bearer tokens: registration, login, and the lookup that turns a
 * bearer credential into the calling user. Password hashing, password
 * checking and token generation are library calls, so they come in as
 * parameters: `hash` and `verify` as functions, a new token as a value.
 */
module Auth {
  import opened Results

  /** A user row; `username` is unique across the table. */
  datatype User = User(id: int, username: string, passwordHash: string)

  /** What `GET /auth/me` answers. */
  datatype MeResponse = MeResponse(id: int, username: string)

  /**
   * The errors of this module: 409 for a taken username, and the 401s of
   * login and of the bearer check, each with its own detail.
   */
  datatype AuthError =
    | UsernameTaken          // 409
    | InvalidCredentials     // 401 "Invalid username or password"
    | NotAuthenticated       // 401 "Not authenticated"
    | InvalidOrExpiredToken  // 401 "Invalid or expired token"
    | UserNotFound           // 401 "User not found"

  /** The token table: each token maps to a user id, or to nothing (a nullable column). */
  type TokenTable = map<string, Option<int>>

  /** The user table, keyed by user id. */
  type UserTable = map<int, User>

  /** Some user in `users` has this name. */
  predicate NameTaken(users: UserTable, username: string)
  {
    exists id :: id in users && users[id].username == username
  }

  /** Usernames identify users: no two rows share one. */
  ghost predicate UniqueNames(users: UserTable)
  {
    forall a, b :: a in users && b in users && users[a].username == users[b].username ==> a == b
  }

  /**
   * The bearer check every authenticated endpoint runs: a missing or empty
   * credential, a token not in the table or bound to no user, and a token
   * bound to a user id with no row fail with three different 401s; otherwise
   * the answer is the user the token is bound to.
   */
  function CurrentUser(credentials: Option<string>, tokens: TokenTable, users: UserTable): (r: Result<User, AuthError>)
    ensures r == Err(NotAuthenticated) <==> credentials.None? || credentials.value == ""
    ensures r == Err(InvalidOrExpiredToken) <==>
      credentials.Some? && credentials.value != "" &&
      (credentials.value !in tokens || tokens[credentials.value].None?)
    ensures r == Err(UserNotFound) <==>
      credentials.Some? && credentials.value != "" && credentials.value in tokens &&
      tokens[credentials.value].Some? && tokens[credentials.value].value !in users
    ensures r.Ok? <==>
      credentials.Some? && credentials.value != "" && credentials.value in tokens &&
      tokens[credentials.value].Some? && tokens[credentials.value].value in users
    ensures r.Ok? ==> r.value == users[tokens[credentials.value].value]
  {
    if credentials.None? || credentials.value == "" then Err(NotAuthenticated)
    else
      var token := credentials.value;
      if token !in tokens || tokens[token].None? then Err(InvalidOrExpiredToken)
      else
        var uid := tokens[token].value;
        if uid !in users then Err(UserNotFound) else Ok(users[uid])
  }

  /**
   * `GET /auth/me`: the id and name of the user behind the credential, when
   * that user is stored under its own id.
   */
  function Me(credentials: Option<string>, tokens: TokenTable, users: UserTable): (r: Result<MeResponse, AuthError>)
    ensures CurrentUser(credentials, tokens, users).Err? ==> r == Err(CurrentUser(credentials, tokens, users).error)
    ensures r.Ok? <==> CurrentUser(credentials, tokens, users).Ok?
    ensures r.Ok? && (forall id :: id in users ==> users[id].id == id) ==>
      r.value.id == tokens[credentials.value].value &&
      r.value.username == users[r.value.id].username
  {
    match CurrentUser(credentials, tokens, users)
    case Err(e) => Err(e)
    case Ok(u) => Ok(MeResponse(u.id, u.username))
  }

  /**
   * A token freshly bound to a stored user authenticates as that user.
   */
  lemma BoundTokenAuthenticates(tokens: TokenTable, users: UserTable, token: string, id: int)
    requires token != "" && id in users
    ensures CurrentUser(Some(token), tokens[token := Some(id)], users) == Ok(users[id])
  {
  }

  /** The user and token tables, with the next id the database will assign. */
  class AuthStore {
    var users: UserTable
    var tokens: TokenTable
    var nextUserId: int

    /** Rows are stored under their own id, below the next id, and names are unique. */
    ghost predicate Valid()
      reads this
    {
      && nextUserId >= 1
      && (forall id :: id in users ==> users[id].id == id && 1 <= id < nextUserId)
      && UniqueNames(users)
    }

    constructor ()
      ensures Valid()
      ensures users == map[] && tokens == map[] && nextUserId == 1
    {
      users := map[];
      tokens := map[];
      nextUserId := 1;
    }

    /**
     * `POST /auth/register`: a taken username fails with 409 and changes
     * nothing; otherwise one user row is added with the hashed password under
     * a new id, and the new token is bound to it and returned.
     */
    method Register(username: string, password: string, hash: string -> string, token: string)
      returns (r: Result<string, AuthError>)
      requires Valid()
      requires token != "" && token !in tokens
      modifies this
      ensures Valid()
      ensures r.Err? <==> NameTaken(old(users), username)
      ensures r.Err? ==> r.error == UsernameTaken && users == old(users) && tokens == old(tokens)
                         && nextUserId == old(nextUserId)
      ensures r.Ok? ==>
        && r.value == token
        && old(nextUserId) !in old(users)
        && users == old(users)[old(nextUserId) := User(old(nextUserId), username, hash(password))]
        && tokens == old(tokens)[token := Some(old(nextUserId))]
        && nextUserId == old(nextUserId) + 1
      ensures r.Ok? ==> CurrentUser(Some(token), tokens, users) == Ok(User(old(nextUserId), username, hash(password)))
    {
      if NameTaken(users, username) {
        return Err(UsernameTaken);
      }
      var id := nextUserId;
      users := users[id := User(id, username, hash(password))];
      nextUserId := nextUserId + 1;
      tokens := tokens[token := Some(id)];
      r := Ok(token);
    }

    /**
     * `POST /auth/login`: an unknown username or a password that does not
     * verify against the stored hash fails with 401 and changes nothing;
     * otherwise the new token is bound to that user and returned.
     */
    method Login(username: string, password: string, verify: (string, string) -> bool, token: string)
      returns (r: Result<string, AuthError>)
      requires Valid()
      requires token != "" && token !in tokens
      modifies this`tokens
      ensures Valid() && users == old(users)
      ensures r.Err? ==> r.error == InvalidCredentials && tokens == old(tokens)
      ensures r.Ok? <==> exists id :: id in users && users[id].username == username
                                      && verify(password, users[id].passwordHash)
      ensures r.Ok? ==> r.value == token
      ensures r.Ok? ==> exists id :: id in users && users[id].username == username
                                     && tokens == old(tokens)[token := Some(id)]
      ensures r.Ok? ==> CurrentUser(Some(token), tokens, users).Ok?
                        && CurrentUser(Some(token), tokens, users).value.username == username
    {
      if !NameTaken(users, username) {
        return Err(InvalidCredentials);
      }
      var id :| id in users && users[id].username == username;
      if !verify(password, users[id].passwordHash) {
        return Err(InvalidCredentials);
      }
      tokens := tokens[token := Some(id)];
      r := Ok(token);
    }
  }

  /**
   * Usernames stay unique: after a registration succeeds, registering the
   * same name again fails, and logging in with the registered password
   * succeeds when the password check accepts its own hash.
   */
  method RegisterThenRepeat(store: AuthStore, username: string, password: string,
                            hash: string -> string, verify: (string, string) -> bool,
                            t1: string, t2: string, t3: string)
      returns (first: Result<string, AuthError>, second: Result<string, AuthError>, login: Result<string, AuthError>)
    requires store.Valid()
    requires t1 != "" && t2 != "" && t3 != "" && t1 != t2 && t1 != t3 && t2 != t3
    requires t1 !in store.tokens && t2 !in store.tokens && t3 !in store.tokens
    requires !NameTaken(store.users, username)
    requires verify(password, hash(password))
    modifies store
    ensures first == Ok(t1)
    ensures second == Err(UsernameTaken)
    ensures login == Ok(t3)
  {
    first := store.Register(username, password, hash, t1);
    assert store.users[store.nextUserId - 1].username == username;
    second := store.Register(username, password, hash, t2);
    login := store.Login(username, password, verify, t3);
  }
}
