/** internal/middleware/auth_middleware.go: the bearer-token gate in front of
    the protected routes, and reading the authenticated user back out of the
    request context. */
module AuthMiddleware {
  import opened Wrappers
  import opened Text
  import opened Accounts
  import opened AuthServices

  const StatusUnauthorized := 401

  const HeaderRequired := "Authorization header required"
  const BadFormat := "Authorization header format must be Bearer {token}"
  const TokenRequired := "Token required"
  const BadToken := "Invalid or expired token"

  /** What the request context holds under a key of this package: the
      `*model.User` the gate stored, or a value of some other type. */
  datatype ContextValue = UserValue(user: User) | OtherValue

  /** The context's entries under this package's `contextKey` type. */
  type Context = map<string, ContextValue>

  const UserKey := "user"

  /** The outcome of the gate: a plain-text error reply, or the next
      handler called with the extended context. */
  datatype Gate = Reject(status: int, message: string) | Proceed(ctx: Context)

  /** The header checks (an absent header reads as ""): the token after
      "Bearer ", split on single spaces. */
  function ParseBearer(header: string): Result<string, string> {
    if header == "" then Failure(HeaderRequired)
    else
      var parts := Split(header, ' ');
      if |parts| != 2 || parts[0] != "Bearer" then Failure(BadFormat)
      else if parts[1] == "" then Failure(TokenRequired)
      else Success(parts[1])
  }

  /** `Auth`: every refusal is a 401 with one of the four messages; on
      success the user is stored under the user key. */
  function Authenticate(header: string, ctx: Context, s: RepoState, jwt: Jwt): Gate {
    match ParseBearer(header)
    case Failure(msg) => Reject(StatusUnauthorized, msg)
    case Success(token) =>
      match GetUserByTokenSpec(s, jwt, token)
      case Failure(_) => Reject(StatusUnauthorized, BadToken)
      case Success(u) => Proceed(ctx[UserKey := UserValue(u)])
  }

  /** `GetUserIDFromContext`. */
  function GetUserIdFromContext(ctx: Context): Result<nat, string> {
    if UserKey !in ctx then Failure("user not found in context")
    else match ctx[UserKey]
      case OtherValue => Failure("invalid user type in context")
      case UserValue(u) => Success(u.id)
  }

  // ---------------------------------------------------------------------
  // Properties
  // ---------------------------------------------------------------------

  /** A header is accepted exactly when it is "Bearer ", then a non-empty
      token without spaces, and the token is what follows the prefix. */
  lemma ParseBearerExactly(header: string, token: string)
    ensures ParseBearer(header) == Success(token) <==>
            (header == "Bearer " + token && token != "" && ' ' !in token)
  {
    if header == "Bearer " + token && token != "" && ' ' !in token {
      var parts := ["Bearer", token];
      assert Join(parts, ' ') == "Bearer" + [' '] + token;
      assert "Bearer" + [' '] + token == header;
      SplitJoin(parts, ' ');
    }
    if ParseBearer(header) == Success(token) {
      var parts := Split(header, ' ');
      assert parts[1..] == [token];
      assert Join(parts, ' ') == "Bearer" + [' '] + token;
    }
  }

  /** "Token required" is the answer for the bare prefix and nothing else. */
  lemma TokenRequiredOnlyForBarePrefix(header: string)
    ensures ParseBearer(header) == Failure(TokenRequired) <==> header == "Bearer "
  {
    if header == "Bearer " {
      var parts := ["Bearer", ""];
      assert Join(parts, ' ') == "Bearer" + [' '] + "";
      assert "Bearer" + [' '] + "" == header;
      SplitJoin(parts, ' ');
    }
    if ParseBearer(header) == Failure(TokenRequired) {
      var parts := Split(header, ' ');
      assert parts[1..] == [""];
      assert Join(parts, ' ') == "Bearer" + [' '] + "";
    }
  }

  /** Every refusal is a 401, and the request goes on exactly when the header
      carries a bearer token that the service resolves to a user through an
      access token. */
  lemma AuthenticateGate(header: string, ctx: Context, s: RepoState, jwt: Jwt)
    ensures Authenticate(header, ctx, s, jwt).Reject? ==> Authenticate(header, ctx, s, jwt).status == StatusUnauthorized
    ensures Authenticate(header, ctx, s, jwt).Proceed? <==>
            (ParseBearer(header).Success? && GetUserByTokenSpec(s, jwt, ParseBearer(header).value).Success?)
    ensures Authenticate(header, ctx, s, jwt).Reject? ==>
            Authenticate(header, ctx, s, jwt).message in {HeaderRequired, BadFormat, TokenRequired, BadToken}
  {
  }

  /** Downstream of the gate the handler reads back the id of the token's
      subject, and the rest of the context is as it was. */
  lemma AuthenticatedIdIsSubject(header: string, ctx: Context, s: RepoState, jwt: Jwt)
    requires RepoValid(s)
    requires Authenticate(header, ctx, s, jwt).Proceed?
    ensures var ctx' := Authenticate(header, ctx, s, jwt).ctx;
            && ParseBearer(header).Success?
            && jwt.validate(ParseBearer(header).value).Success?
            && GetUserIdFromContext(ctx') == Success(jwt.validate(ParseBearer(header).value).value.0)
            && forall k :: k in ctx && k != UserKey ==> k in ctx' && ctx'[k] == ctx[k]
  {
    var token := ParseBearer(header).value;
    GetUserByTokenAccessOnly(s, jwt, token);
  }

  /** Reading the user id fails exactly when the gate did not store a user. */
  lemma GetUserIdFromContextCases(ctx: Context)
    ensures GetUserIdFromContext(ctx).Success? <==> (UserKey in ctx && ctx[UserKey].UserValue?)
    ensures GetUserIdFromContext(ctx).Success? ==> GetUserIdFromContext(ctx).value == ctx[UserKey].user.id
  {
  }
}
