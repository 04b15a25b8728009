/** The access guards of app/permission.py: extracting the bearer token from
    the `Authorization` header, and the admin and regular role checks. */
module Permission {
  import opened Common
  import opened AuthUtils

  /** Python's `s.split(sep)` with an explicit one-character separator: every
      occurrence of `sep` ends a field, so adjacent separators give empty
      fields and the result always has at least one field. */
  function Split(s: string, sep: char): (parts: seq<string>)
    ensures |parts| >= 1
    ensures forall i :: 0 <= i < |parts| ==> sep !in parts[i]
    decreases |s|
  {
    if s == [] then [""]
    else
      var rest := Split(s[1..], sep);
      if s[0] == sep then [""] + rest
      else [[s[0]] + rest[0]] + rest[1..]
  }

  /** `sep.join(parts)` */
  function Join(parts: seq<string>, sep: char): string
    requires |parts| >= 1
    decreases |parts|
  {
    if |parts| == 1 then parts[0] else parts[0] + [sep] + Join(parts[1..], sep)
  }

  /** Splitting loses nothing: joining the fields with the separator gives the
      string back. */
  lemma {:induction false} JoinSplit(s: string, sep: char)
    ensures Join(Split(s, sep), sep) == s
    decreases |s|
  {
    if s != [] {
      JoinSplit(s[1..], sep);
      var rest := Split(s[1..], sep);
      if s[0] == sep {
        assert Split(s, sep)[1..] == rest;
      } else {
        var parts := Split(s, sep);
        if |rest| == 1 {
          assert parts == [[s[0]] + rest[0]];
        } else {
          assert parts[1..] == rest[1..];
          assert Join(rest, sep) == rest[0] + [sep] + Join(rest[1..], sep);
        }
      }
    }
  }

  /** A separator-free field followed by the separator splits off as the
      first field. */
  lemma {:induction false} SplitLeadingField(w: string, sep: char, rest: string)
    requires sep !in w
    ensures Split(w + [sep] + rest, sep) == [w] + Split(rest, sep)
    decreases |w|
  {
    var s := w + [sep] + rest;
    if w == [] {
      assert s[1..] == rest;
    } else {
      assert s[1..] == w[1..] + [sep] + rest;
      SplitLeadingField(w[1..], sep, rest);
      assert [w[0]] + w[1..] == w;
    }
  }

  /** The first field is the longest prefix free of the separator. */
  lemma {:induction false} FirstField(s: string, sep: char)
    ensures Split(s, sep)[0] <= s
    ensures |Split(s, sep)[0]| == |s| || s[|Split(s, sep)[0]|] == sep
    decreases |s|
  {
    if s != [] && s[0] != sep {
      FirstField(s[1..], sep);
    }
  }

  const BEARER_PREFIX := "Bearer "

  const TOKEN_MISSING := HttpError(401, "Authorization token missing or invalid")

  /** `get_token_from_request`: a missing or empty header, or one not starting
      with "Bearer ", is 401; otherwise the token is the second field of
      `authorization.split(" ")`, i.e. the text after the prefix up to the next
      space (possibly empty). */
  function GetTokenFromRequest(authorization: Option<string>): (r: Result<string>)
    ensures r.Err? <==> authorization.None? || !(BEARER_PREFIX <= authorization.value)
    ensures r.Err? ==> r.error == TOKEN_MISSING
    ensures r.Ok? ==>
              var rest := authorization.value[|BEARER_PREFIX|..];
              && r.value <= rest
              && ' ' !in r.value
              && (|r.value| == |rest| || rest[|r.value|] == ' ')
  {
    if authorization.None? || authorization.value == "" || !(BEARER_PREFIX <= authorization.value) then
      Err(TOKEN_MISSING)
    else
      var header := authorization.value;
      var rest := header[|BEARER_PREFIX|..];
      assert header == "Bearer" + [' '] + rest;
      SplitLeadingField("Bearer", ' ', rest);
      FirstField(rest, ' ');
      Ok(Split(header, ' ')[1])
  }

  /** Two spaces after "Bearer" give an empty token, not an error. */
  lemma DoubleSpaceGivesEmptyToken()
    ensures GetTokenFromRequest(Some("Bearer  x")) == Ok("")
  {
    assert "Bearer  x"[|BEARER_PREFIX|..] == " x";
  }

  const ACCESS_FORBIDDEN := HttpError(403, "Invalid token or access forbidden")

  /** The body shared by `is_admin` and `is_regular_user`: decode, compare
      `decoded.get("role")` with the expected value, and let the broad
      `except Exception` turn every raised error, the decoder's 401 included,
      into 403. */
  function RequireRole(jwt: Jwt, token: string, now: int, expected: string, mismatch: string): (r: Result<bool>)
    ensures r.Ok? <==> (jwt.decode(token, now).Some?
                        && "role" in jwt.decode(token, now).value
                        && jwt.decode(token, now).value["role"] == Str(expected))
    ensures r.Ok? ==> r.value
    ensures r.Err? ==> r.error == ACCESS_FORBIDDEN
  {
    var attempt: Result<bool> :=
      match DecodeAccessToken(jwt, token, now)
      case Err(e) => Err(e)
      case Ok(decoded) =>
        var role := if "role" in decoded then Some(decoded["role"]) else None;
        if role != Some(Str(expected)) then Err(HttpError(403, mismatch)) else Ok(true);
    match attempt
    case Err(_) => Err(ACCESS_FORBIDDEN)
    case Ok(_) => Ok(true)
  }

  /** `is_admin(token)` */
  function IsAdmin(jwt: Jwt, token: string, now: int): (r: Result<bool>)
    ensures r.Ok? <==> (jwt.decode(token, now).Some?
                        && "role" in jwt.decode(token, now).value
                        && jwt.decode(token, now).value["role"] == Str("admin"))
    ensures r.Err? ==> r.error == ACCESS_FORBIDDEN
  {
    RequireRole(jwt, token, now, "admin", "Only Admin can access this endpoint")
  }

  /** `is_regular_user(token)` */
  function IsRegularUser(jwt: Jwt, token: string, now: int): (r: Result<bool>)
    ensures r.Ok? <==> (jwt.decode(token, now).Some?
                        && "role" in jwt.decode(token, now).value
                        && jwt.decode(token, now).value["role"] == Str("regular"))
    ensures r.Err? ==> r.error == ACCESS_FORBIDDEN
  {
    RequireRole(jwt, token, now, "regular", "Only Regular User can access this endpoint")
  }

  /** A token that fails to decode is 401 from `decode_access_token` but 403
      from both guards. */
  lemma UndecodableTokenIsForbidden(jwt: Jwt, token: string, now: int)
    requires jwt.decode(token, now).None?
    ensures DecodeAccessToken(jwt, token, now) == Err(HttpError(401, "Invalid token"))
    ensures IsAdmin(jwt, token, now) == Err(ACCESS_FORBIDDEN)
    ensures IsRegularUser(jwt, token, now) == Err(ACCESS_FORBIDDEN)
  {
  }

  /** No token passes both guards. */
  lemma GuardsExclusive(jwt: Jwt, token: string, now: int)
    ensures !(IsAdmin(jwt, token, now).Ok? && IsRegularUser(jwt, token, now).Ok?)
  {
  }
}
