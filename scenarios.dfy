/** What the pieces promise together: a token issued by `login` resolves back
    to the user who logged in and carries that user's role, until it expires. */
module Scenarios {
  import opened Common
  import opened Models
  import opened AuthUtils
  import opened Permission
  import opened Routers

  /** The claims a login token decodes to name its user and its role. */
  lemma LoginTokenClaims(u: User, now: int, expireMinutes: int)
    ensures var c := TokenClaims(LoginClaims(u), now, expireMinutes);
            && c != map[]
            && Subject(c) == Some(u.username)
            && "role" in c && c["role"] == Str(u.role.Value())
  {
    var c := TokenClaims(LoginClaims(u), now, expireMinutes);
    assert "sub" in LoginClaims(u) && "sub" != "exp";
    assert c["sub"] == LoginClaims(u)["sub"];
    assert c["role"] == LoginClaims(u)["role"];
  }

  /** Before it expires, the token of a successful login resolves (in both
      resolvers) to the user who logged in, and passes exactly the guard of
      that user's role. */
  lemma LoginTokenIdentifiesUser(s: Store, username: string, password: string, hasher: Hasher,
                                 jwt: Jwt, now: int, setting: Option<int>, later: int)
    requires s.Valid() && Sound(jwt)
    requires s.Login(username, password, hasher, jwt, now, setting).Ok?
    requires later <= now + 60 * ExpireMinutes(setting)
    ensures var login := s.Login(username, password, hasher, jwt, now, setting).value;
            && GetCurrentUser(jwt, login.accessToken, later, s.users) == Ok(login.id)
            && PostCurrentUser(jwt, login.accessToken, later, s.users) == Ok(login.id)
            && (IsAdmin(jwt, login.accessToken, later).Ok? <==> s.users[login.id].role == Admin)
            && (IsRegularUser(jwt, login.accessToken, later).Ok? <==> s.users[login.id].role == Regular)
  {
    var login := s.Login(username, password, hasher, jwt, now, setting).value;
    var u := s.users[login.id];
    CreatedTokenDecodes(jwt, LoginClaims(u), now, setting, later);
    LoginTokenClaims(u, now, ExpireMinutes(setting));
    var c := TokenClaims(LoginClaims(u), now, ExpireMinutes(setting));
    assert jwt.decode(login.accessToken, later) == Some(c);
    assert UserByName(s.users, username) == Some(login.id);
    assert Str("admin") == Str(u.role.Value()) <==> u.role == Admin;
    assert Str("regular") == Str(u.role.Value()) <==> u.role == Regular;
  }

  /** After its expiry a login token is "Invalid token" (401) to the user
      resolver and forbidden (403) to both guards. */
  lemma ExpiredLoginToken(s: Store, username: string, password: string, hasher: Hasher,
                          jwt: Jwt, now: int, setting: Option<int>, later: int)
    requires s.Valid() && Sound(jwt)
    requires s.Login(username, password, hasher, jwt, now, setting).Ok?
    requires later > now + 60 * ExpireMinutes(setting)
    ensures var token := s.Login(username, password, hasher, jwt, now, setting).value.accessToken;
            && GetCurrentUser(jwt, token, later, s.users) == Err(INVALID_TOKEN)
            && IsAdmin(jwt, token, later) == Err(ACCESS_FORBIDDEN)
            && IsRegularUser(jwt, token, later) == Err(ACCESS_FORBIDDEN)
  {
    var login := s.Login(username, password, hasher, jwt, now, setting).value;
    CreatedTokenDecodes(jwt, LoginClaims(s.users[login.id]), now, setting, later);
  }

  /** Register "alice" in an empty store and log in: the right password gets
      a token, a wrong one is 401, and the token, being a regular user's, is
      forbidden from admin endpoints (403) but accepted by regular ones. */
  method AliceLogsIn(hasher: Hasher, jwt: Jwt, now: int, setting: Option<int>)
    returns (registered: Result<UserView>, loggedIn: Result<LoginResponse>, wrongPassword: Result<LoginResponse>,
             adminCheck: Result<bool>, regularCheck: Result<bool>)
    requires Verifies(hasher) && Sound(jwt) && ExpireMinutes(setting) >= 0
    requires !hasher.verify("wrong", hasher.hash("secret123", "salt"))
    ensures registered.Ok? && registered.value.username == "alice"
    ensures loggedIn.Ok? && loggedIn.value.tokenType == "Bearer" && loggedIn.value.id == registered.value.id
    ensures wrongPassword == Err(AUTHENTICATION_FAILED)
    ensures adminCheck == Err(ACCESS_FORBIDDEN)
    ensures regularCheck == Ok(true)
  {
    var store := new Store();
    registered := store.Register("alice", "secret123", "salt", hasher);
    assert !UsernameTaken(map[], "alice");
    var id := registered.value.id;
    assert store.users == map[id := User("alice", hasher.hash("secret123", "salt"), Regular)];
    loggedIn := store.Login("alice", "secret123", hasher, jwt, now, setting);
    wrongPassword := store.Login("alice", "wrong", hasher, jwt, now, setting);
    LoginTokenIdentifiesUser(store, "alice", "secret123", hasher, jwt, now, setting, now);
    adminCheck := IsAdmin(jwt, loggedIn.value.accessToken, now);
    regularCheck := IsRegularUser(jwt, loggedIn.value.accessToken, now);
  }
}
