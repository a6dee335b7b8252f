/**
 * The authentication middlewares (src/middlewares/authenticate.ts):
 * bearer-token extraction, token verification, the session guard
 * `protect`, the API-key gate and the admin gate. Token verification
 * itself is a parameter.
 */
module Authenticate {
  import opened Wrappers
  import opened Errors
  import Strings

  /** The claims a verified token carries: the user's id and whether the user is an administrator. */
  datatype JwtUser = JwtUser(id: string, isAdmin: bool)

  /** How a middleware ends: it calls `next()`, or it throws. */
  datatype Next = CallNext | Throw(error: ErrorHandler)

  const BearerPrefix: string := "Bearer "
  const TokenRequired: string := "Auth token is required"
  const TokenInvalid: string := "Error occured while validating token"
  const ApiKeyRejected: string := "Unauthorized. API key is missing or invalid"
  const AccessDenied: string := "Access denied."

  /**
   * `getAuthToken`: a header that starts with "Bearer " is replaced by
   * its second space-separated field; a missing or empty token is refused.
   */
  function GetAuthToken(authorization: Option<string>): (r: Result<string, ErrorHandler>)
    ensures authorization.None? ==> r == Failure(AuthenticationError(TokenRequired))
    ensures authorization.Some? && Strings.StartsWith(authorization.value, BearerPrefix) ==>
      var field := Strings.TakeUntil(authorization.value[|BearerPrefix|..], ' ');
      r == if field == "" then Failure(AuthenticationError(TokenRequired)) else Success(field)
    ensures authorization.Some? && !Strings.StartsWith(authorization.value, BearerPrefix) ==>
      r == if authorization.value == "" then Failure(AuthenticationError(TokenRequired)) else Success(authorization.value)
  {
    var token :=
      if authorization.Some? && Strings.StartsWith(authorization.value, BearerPrefix) then
        BearerField(authorization.value)
      else authorization;
    if token.None? || token.value == "" then Failure(AuthenticationError(TokenRequired))
    else Success(token.value)
  }

  /** `header.split(" ")[1]` for a header that starts with "Bearer ". */
  function BearerField(header: string): (token: Option<string>)
    requires Strings.StartsWith(header, BearerPrefix)
    ensures token == Some(Strings.TakeUntil(header[|BearerPrefix|..], ' '))
  {
    var rest := header[|BearerPrefix|..];
    assert header == "Bearer" + " " + rest;
    Strings.FirstOfSingleChar("Bearer", " ", rest);
    Strings.SplitAtFirst("Bearer", " ", rest);
    Strings.FirstFieldOfSingleChar(rest, ' ');
    Some(Strings.Split(header, " ")[1])
  }

  /** The bearer token of "Bearer <t>" is `t` whenever `t` is non-empty and has no space. */
  lemma BearerTokenExtracted(t: string)
    requires t != "" && ' ' !in t
    ensures GetAuthToken(Some(BearerPrefix + t)) == Success(t)
  {
    var h := BearerPrefix + t;
    assert h[|BearerPrefix|..] == t;
    assert Strings.StartsWith(h, BearerPrefix);
    TakeUntilAbsent(t, ' ');
  }

  lemma {:induction false} TakeUntilAbsent(s: string, c: char)
    requires c !in s
    ensures Strings.TakeUntil(s, c) == s
  {
    if s != [] {
      assert forall x :: x in s[1..] ==> x in s;
      TakeUntilAbsent(s[1..], c);
    }
  }

  /** "Bearer " alone and "Bearer  x" (two spaces) both leave an empty token, which is refused. */
  lemma EmptyBearerTokensRefused(x: string)
    ensures GetAuthToken(Some(BearerPrefix)) == Failure(AuthenticationError(TokenRequired))
    ensures GetAuthToken(Some(BearerPrefix + " " + x)) == Failure(AuthenticationError(TokenRequired))
  {
    assert Strings.StartsWith(BearerPrefix, BearerPrefix);
    assert BearerPrefix[|BearerPrefix|..] == "";
    var h := BearerPrefix + " " + x;
    assert Strings.StartsWith(h, BearerPrefix);
    assert h[|BearerPrefix|..] == " " + x;
  }

  /** `decodeToken`: any verification failure becomes one authentication error. */
  function DecodeToken(token: string, verify: string -> Option<JwtUser>): (r: Result<JwtUser, ErrorHandler>)
    ensures r.Success? <==> verify(token).Some?
    ensures r.Success? ==> r.value == verify(token).value
    ensures r.Failure? ==> r.error == AuthenticationError(TokenInvalid)
  {
    match verify(token)
    case Some(user) => Success(user)
    case None => Failure(AuthenticationError(TokenInvalid))
  }

  /** The `response.locals` slot `protect` writes. */
  class Response {
    var user: Option<JwtUser>

    constructor()
      ensures user == None
    {
      user := None;
    }
  }

  /**
   * `protect`: extracts and verifies the token, stores the verified user
   * in `response.locals.user`, then calls `next()`; on any failure the
   * response is left untouched and the error is thrown.
   */
  method Protect(authorization: Option<string>, verify: string -> Option<JwtUser>, response: Response) returns (r: Next)
    modifies response
    ensures GetAuthToken(authorization).Failure? ==>
      r == Throw(GetAuthToken(authorization).error) && response.user == old(response.user)
    ensures GetAuthToken(authorization).Success? && verify(GetAuthToken(authorization).value).None? ==>
      r == Throw(AuthenticationError(TokenInvalid)) && response.user == old(response.user)
    ensures GetAuthToken(authorization).Success? && verify(GetAuthToken(authorization).value).Some? ==>
      r == CallNext && response.user == verify(GetAuthToken(authorization).value)
  {
    var token := GetAuthToken(authorization);
    if token.Failure? {
      return Throw(token.error);
    }
    var decoded := DecodeToken(token.value, verify);
    if decoded.Failure? {
      return Throw(decoded.error);
    }
    response.user := Some(decoded.value);
    r := CallNext;
  }

  /** `apiKeyAuthMiddleware`: passes exactly a non-empty key equal to the configured one. */
  function ApiKeyAuth(received: Option<string>, configured: Option<string>): (r: Next)
    ensures r == CallNext <==> received.Some? && received.value != "" && configured == received
    ensures r != CallNext ==> r == Throw(AuthenticationError(ApiKeyRejected))
  {
    if received.None? || received.value == "" || configured != received then
      Throw(AuthenticationError(ApiKeyRejected))
    else CallNext
  }

  /** `isAdmin`: administrators pass, everyone else is refused with 403. */
  function IsAdmin(user: JwtUser): (r: Next)
    ensures r == CallNext <==> user.isAdmin
    ensures !user.isAdmin ==> r == Throw(AuthorizationError(AccessDenied))
    ensures !user.isAdmin ==> r.error.statusCode == 403 && r.error.message == AccessDenied
  {
    if !user.isAdmin then Throw(AuthorizationError(AccessDenied)) else CallNext
  }
}
