/** The credential and token helpers of app/utils/auth.py.  Password hashing
    (Argon2) and JWT signing are foreign libraries: they enter the model as
    function values, and what the model relies on about them is stated as the
    predicates `Verifies` and `Sound`. */
module AuthUtils {
  import opened Common
  import opened Models

  /** A claim value: the claims this code builds are strings, and `exp` is a
      numeric timestamp once encoded. */
  datatype Value = Str(s: string) | Num(n: int)

  type Claims = map<string, Value>

  /** `pwd_context.hash(password)` with its random salt made a parameter, and
      `pwd_context.verify(plain, hashed)`. */
  datatype Hasher = Hasher(hash: (string, string) -> string, verify: (string, string) -> bool)

  /** `jwt.encode(claims, SECRET_KEY, ALGORITHM)` and
      `jwt.decode(token, SECRET_KEY, [ALGORITHM])` at time `now` (seconds);
      None stands for a raised JWTError. */
  datatype Jwt = Jwt(encode: Claims -> string, decode: (string, int) -> Option<Claims>)

  /** Verification accepts a password against any hash made of it. */
  ghost predicate Verifies(h: Hasher)
  {
    forall p, salt :: h.verify(p, h.hash(p, salt))
  }

  /** A claim set whose `exp` (if any) has not passed at `now`. */
  predicate NotExpired(c: Claims, now: int)
  {
    "exp" !in c || (c["exp"].Num? && now <= c["exp"].n)
  }

  /** The round-trip assumption on the signing library: a token made from `c`
      decodes to exactly `c` until it expires, and fails to decode afterwards. */
  ghost predicate Sound(jwt: Jwt)
  {
    forall c, now :: jwt.decode(jwt.encode(c), now) == if NotExpired(c, now) then Some(c) else None
  }

  /** `ACCESS_TOKEN_EXPIRE_MINUTES` when the environment leaves it unset. */
  const DEFAULT_ACCESS_TOKEN_EXPIRE_MINUTES := 300

  /** `int(os.getenv("ACCESS_TOKEN_EXPIRE_MINUTES", 300))`, given the parsed
      setting. */
  function ExpireMinutes(setting: Option<int>): (m: int)
    ensures setting.None? ==> m == 300
    ensures setting.Some? ==> m == setting.value
  {
    match setting
    case None => DEFAULT_ACCESS_TOKEN_EXPIRE_MINUTES
    case Some(v) => v
  }

  /** The expiry stamped at `now`: `utcnow() + timedelta(minutes=...)`. */
  function ExpiryAt(now: int, expireMinutes: int): int
  {
    now + expireMinutes * 60
  }

  /** `to_encode`: a copy of the caller's claims with `exp` added or replaced. */
  function TokenClaims(data: Claims, now: int, expireMinutes: int): (c: Claims)
    ensures c.Keys == data.Keys + {"exp"}
    ensures c["exp"] == Num(now + 60 * expireMinutes)
    ensures forall k :: k in data && k != "exp" ==> c[k] == data[k]
  {
    data["exp" := Num(ExpiryAt(now, expireMinutes))]
  }

  /** `create_access_token(data)` at time `now`, with the lifetime read from
      the `ACCESS_TOKEN_EXPIRE_MINUTES` setting.  Under a sound signer the
      token decodes, when issued, to the caller's claims plus `exp`. */
  function CreateAccessToken(jwt: Jwt, data: Claims, now: int, setting: Option<int>): (t: string)
    ensures Sound(jwt) && ExpireMinutes(setting) >= 0 ==>
              jwt.decode(t, now) == Some(TokenClaims(data, now, ExpireMinutes(setting)))
  {
    var c := TokenClaims(data, now, ExpireMinutes(setting));
    assert Sound(jwt) ==> jwt.decode(jwt.encode(c), now) == if NotExpired(c, now) then Some(c) else None;
    jwt.encode(c)
  }

  const INVALID_TOKEN := HttpError(401, "Invalid token")

  /** `decode_access_token(token)`: the payload, or 401 "Invalid token" on any
      JWTError, never a partial payload. */
  function DecodeAccessToken(jwt: Jwt, token: string, now: int): (r: Result<Claims>)
    ensures r.Ok? <==> jwt.decode(token, now).Some?
    ensures r.Ok? ==> r.value == jwt.decode(token, now).value
    ensures r.Err? ==> r.error == INVALID_TOKEN
  {
    match jwt.decode(token, now)
    case Some(payload) => Ok(payload)
    case None => Err(INVALID_TOKEN)
  }

  /** A token created at `now` decodes, until its expiry, to the caller's
      claims plus `exp`; after its expiry it is rejected with 401. */
  lemma CreatedTokenDecodes(jwt: Jwt, data: Claims, now: int, setting: Option<int>, later: int)
    requires Sound(jwt)
    ensures later <= now + 60 * ExpireMinutes(setting) ==>
              DecodeAccessToken(jwt, CreateAccessToken(jwt, data, now, setting), later)
              == Ok(TokenClaims(data, now, ExpireMinutes(setting)))
    ensures later > now + 60 * ExpireMinutes(setting) ==>
              DecodeAccessToken(jwt, CreateAccessToken(jwt, data, now, setting), later) == Err(INVALID_TOKEN)
  {
    var c := TokenClaims(data, now, ExpireMinutes(setting));
    assert jwt.decode(jwt.encode(c), later) == if NotExpired(c, later) then Some(c) else None;
  }

  const AUTH_REQUIRED := HttpError(401, "Authentication Required or Invalid Token")
  const USER_NOT_FOUND := HttpError(404, "User not found")

  /** The username a payload's `sub` claim names, if it is a string. */
  function Subject(payload: Claims): Option<string>
  {
    if "sub" in payload && payload["sub"].Str? then Some(payload["sub"].s) else None
  }

  /** `get_current_user(token, db)` of app/utils/auth.py: the id of the user
      whose username is the token's `sub`.  A decode failure is 401 "Invalid
      token", an empty payload 401, a payload without `sub` a KeyError (500),
      and a `sub` that names no user 404. */
  function GetCurrentUser(jwt: Jwt, token: string, now: int, users: map<nat, User>): (r: Result<nat>)
    requires UniqueUsernames(users)
    ensures jwt.decode(token, now).None? ==> r == Err(INVALID_TOKEN)
    ensures jwt.decode(token, now) == Some(map[]) ==> r == Err(AUTH_REQUIRED)
    ensures (jwt.decode(token, now).Some? && jwt.decode(token, now).value != map[]
             && "sub" !in jwt.decode(token, now).value) ==> r == Err(INTERNAL_SERVER_ERROR)
    ensures r.Ok? <==> jwt.decode(token, now).Some? && Subject(jwt.decode(token, now).value).Some?
                       && UsernameTaken(users, Subject(jwt.decode(token, now).value).value)
    ensures r.Ok? ==> r.value in users && Some(users[r.value].username) == Subject(jwt.decode(token, now).value)
    ensures (jwt.decode(token, now).Some? && "sub" in jwt.decode(token, now).value && r.Err?) ==> r.error == USER_NOT_FOUND
  {
    match DecodeAccessToken(jwt, token, now)
    case Err(e) => Err(e)
    case Ok(payload) =>
      if payload == map[] then Err(AUTH_REQUIRED)
      else if "sub" !in payload then Err(INTERNAL_SERVER_ERROR)
      else
        match Subject(payload)
        case None => Err(USER_NOT_FOUND)
        case Some(name) =>
          match UserByName(users, name)
          case None => Err(USER_NOT_FOUND)
          case Some(id) => Ok(id)
  }
}
