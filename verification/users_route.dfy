/**
 * The one piece of logic in backend/routes/users.py: `get_current_user_id`, which reads the
 * user id out of an `Authorization: Bearer <token>` header. Decoding and checking the token
 * happens outside this model and is passed in as a function; `None` stands for a token that
 * does not decode or has expired.
 */
module UsersRoute {
  import opened Wrappers
  import opened Strings
  import opened Exceptions
  import opened Records
  import opened UserService

  const MissingHeader := UnauthorizedException("Missing or invalid authorization header")
  const InvalidToken := UnauthorizedException("Invalid or expired token")
  const InvalidPayload := UnauthorizedException("Invalid token payload")

  const BearerPrefix := "Bearer "

  predicate StartsWith(s: string, prefix: string)
  {
    |prefix| <= |s| && s[..|prefix|] == prefix
  }

  /** `authorization.split(" ")[1]`. */
  function BearerToken(header: string): (r: string)
    requires StartsWith(header, BearerPrefix)
    ensures ' ' !in r
  {
    SplitPiecesFree(header, ' ');
    assert header == "Bearer" + [' '] + header[7..];
    SplitAppend("Bearer", ' ', []);
    SplitLength(header);
    Split(header, ' ')[1]
  }

  /** A string beginning with "Bearer " splits into at least two pieces on spaces. */
  lemma SplitLength(header: string)
    requires StartsWith(header, BearerPrefix)
    ensures |Split(header, ' ')| >= 2
  {
    SplitJoin(header, ' ');
    assert header[6] == ' ';
    CountPositive(header, ' ', 6);
  }

  /** A character that occurs in a string is counted at least once. */
  lemma {:induction false} CountPositive(s: string, c: char, i: nat)
    requires i < |s| && s[i] == c
    ensures Count(s, c) >= 1
    decreases |s|
  {
    if i < |s| - 1 {
      CountPositive(s[..|s| - 1], c, i);
    }
  }

  /** `get_current_user_id`: the header must be present and start with "Bearer "; the second
      space-separated field must decode to a non-empty payload with a non-empty "sub"; the
      result is "sub" read as an integer. */
  function GetCurrentUserId(authorization: Option<string>, decode: string -> Option<Claims>)
    : (r: Result<int, AppException>)
    ensures (authorization.None? || !StartsWith(authorization.value, BearerPrefix)) ==> r == Err(MissingHeader)
    ensures r.Ok? ==> && authorization.Some? && StartsWith(authorization.value, BearerPrefix)
                      && decode(BearerToken(authorization.value)).Some?
                      && "sub" in decode(BearerToken(authorization.value)).value
                      && ParseInt(decode(BearerToken(authorization.value)).value["sub"]) == Some(r.value)
    ensures (&& authorization.Some? && StartsWith(authorization.value, BearerPrefix)
             && (decode(BearerToken(authorization.value)).None?
                 || decode(BearerToken(authorization.value)).value == map[]))
            ==> r == Err(InvalidToken)
    ensures (&& authorization.Some? && StartsWith(authorization.value, BearerPrefix)
             && decode(BearerToken(authorization.value)).Some?
             && decode(BearerToken(authorization.value)).value != map[])
            ==> var payload := decode(BearerToken(authorization.value)).value;
                && ("sub" !in payload || payload["sub"] == "" ==> r == Err(InvalidPayload))
                // `int(sub)`: a ValueError for a "sub" that is not an integer is answered with 500
                && ("sub" in payload && payload["sub"] != "" && ParseInt(payload["sub"]).None? ==> r == Err(InternalError))
                && ("sub" in payload && ParseInt(payload["sub"]).Some? ==> r == Ok(ParseInt(payload["sub"]).value))
    ensures r.Err? ==> StatusCode(r.error) == 401 || r.error == InternalError
  {
    if authorization.None? || !StartsWith(authorization.value, BearerPrefix) then Err(MissingHeader)
    else
      var payload := decode(BearerToken(authorization.value));
      if payload.None? || payload.value == map[] then Err(InvalidToken)
      else if "sub" !in payload.value || payload.value["sub"] == "" then Err(InvalidPayload)
      else match ParseInt(payload.value["sub"])
        case None => Err(InternalError)
        case Some(id) => Ok(id)
  }

  /** For a token without spaces, the second field of "Bearer <token>" is the token itself. */
  lemma TokenIsSecondField(token: string)
    requires ' ' !in token
    ensures StartsWith(BearerPrefix + token, BearerPrefix)
    ensures BearerToken(BearerPrefix + token) == token
  {
    var header := BearerPrefix + token;
    assert header[..7] == BearerPrefix;
    assert header == "Bearer" + [' '] + token;
    SplitNoSep("Bearer", ' ');
    SplitAppend("Bearer", ' ', token);
  }

  /** The token a login hands out identifies the logged-in user: sent back as a bearer header,
      provided the encoder emits no spaces (true of JWTs) and decoding its token gives back a
      payload with the same "sub" (the encoder may add claims such as "exp"), it yields that
      user's id. */
  lemma LoginTokenIdentifiesUser(users: seq<User>, username: string, password: string,
                                 verify: (string, string) -> bool, createToken: Claims -> string,
                                 decode: string -> Option<Claims>)
    requires forall c :: "sub" in c ==>
               && ' ' !in createToken(c)
               && decode(createToken(c)).Some?
               && "sub" in decode(createToken(c)).value
               && decode(createToken(c)).value["sub"] == c["sub"]
    requires AuthenticateUser(users, username, password, verify, createToken).Ok?
    ensures var login := AuthenticateUser(users, username, password, verify, createToken).value;
            GetCurrentUserId(Some(BearerPrefix + login.accessToken), decode) == Ok(login.user.id)
  {
    var login := AuthenticateUser(users, username, password, verify, createToken).value;
    var claims := TokenClaims(login.user);
    TokenIsSecondField(login.accessToken);
    var payload := decode(createToken(claims)).value;
    assert payload != map[] by { assert "sub" in payload; }
    assert payload["sub"] != "" by { assert |IntToString(login.user.id)| >= 1; }
  }
}
