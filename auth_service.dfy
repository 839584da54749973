/** internal/service/auth_service.go: registration, password login, and the
    two token checks, over the user store with an abstract password hasher
    and token service. */
module AuthServices {
  import opened Wrappers
  import opened Accounts

  /** `util.AccessToken` / `util.RefreshToken`. */
  datatype TokenType = AccessToken | RefreshToken

  /** `util.JwtService`: signing a token for a user id and type, and
      validating a token back to the id and type it was signed for. */
  datatype Jwt = Jwt(
    generate: (nat, TokenType) -> Result<string, string>,
    validate: string -> Result<(nat, TokenType), string>)

  /** `util.HashPassword` and `util.CheckPassword(hashed, plain)`. */
  datatype Hasher = Hasher(hash: string -> Result<string, string>, check: (string, string) -> bool)

  /** The errors the service returns: its sentinel values, a cause wrapped
      with `fmt.Errorf("<context>: %w")`, a cause returned as it came, and
      an ad-hoc `errors.New(message)`. */
  datatype AuthError =
    | EmailAlreadyExists    // "user with this email already exists"
    | InvalidCredentials    // "invalid email or password"
    | UserNotFound          // "user not found"
    | InvalidToken          // "invalid token"
    | Unauthorized          // "unauthorized"
    | Wrapped(context: string, cause: string)
    | Passed(cause: string)
    | Plain(message: string)

  datatype RefreshResponse = RefreshResponse(accessToken: string, refreshToken: string)

  /** The row `Register` inserts: the names and email from the request, the
      hashed password, no username, nothing used of a 15000 limit, and the
      column default "local" as provider. */
  function NewLocalUser(req: RegisterRequest, hashed: string): User {
    User(0, req.email, "", hashed, req.firstName, req.lastName, 0, 15000, 0, 0, LocalAuth, "")
  }

  /** The two tokens for a user, each failure wrapped with its context. */
  function WrappedTokens(jwt: Jwt, u: User): Result<AuthResponse, AuthError> {
    match jwt.generate(u.id, AccessToken)
    case Failure(e) => Failure(Wrapped("error generating token", e))
    case Success(t) =>
      match jwt.generate(u.id, RefreshToken)
      case Failure(e) => Failure(Wrapped("error generating refresh token", e))
      case Success(rt) => Success(AuthResponse(ToResponse(u), t, rt))
  }

  /** `Register`: the reply and the store it leaves. */
  function RegisterSpec(s: RepoState, jwt: Jwt, hasher: Hasher, req: RegisterRequest): (Result<AuthResponse, AuthError>, RepoState) {
    match FindByEmail(s, req.email)
    case Failure(e) => (Failure(Wrapped("error checking existing user", e)), s)
    case Success(found) =>
      if found.Some? then (Failure(EmailAlreadyExists), s)
      else
        match hasher.hash(req.password)
        case Failure(e) => (Failure(Passed(e)), s)
        case Success(h) =>
          match Create(s, NewLocalUser(req, h))
          case Failure(e) => (Failure(Wrapped("error creating user", e)), s)
          case Success(p) => (WrappedTokens(jwt, p.1), p.0)
  }

  /** `Login`: the reply; the store is only read. */
  function LoginSpec(s: RepoState, jwt: Jwt, hasher: Hasher, req: LoginRequest): Result<AuthResponse, AuthError> {
    match FindByEmail(s, req.email)
    case Failure(e) => Failure(Wrapped("error finding user", e))
    case Success(found) =>
      if found.None? then Failure(InvalidCredentials)
      else if !hasher.check(found.value.password, req.password) then Failure(InvalidCredentials)
      else WrappedTokens(jwt, found.value)
  }

  /** `GetUserByToken`. */
  function GetUserByTokenSpec(s: RepoState, jwt: Jwt, token: string): Result<User, AuthError> {
    match jwt.validate(token)
    case Failure(e) => Failure(Passed(e))
    case Success(claim) =>
      if claim.1 != AccessToken then Failure(Unauthorized)
      else
        match GetById(s, claim.0)
        case Failure(e) => Failure(Passed(e))
        case Success(found) =>
          if found.None? then Failure(Plain("user not found")) else Success(found.value)
  }

  /** `RefreshTokens`. */
  function RefreshTokensSpec(s: RepoState, jwt: Jwt, token: string): Result<RefreshResponse, AuthError> {
    match jwt.validate(token)
    case Failure(e) => Failure(Passed(e))
    case Success(claim) =>
      if claim.1 != RefreshToken then Failure(Unauthorized)
      else
        match GetById(s, claim.0)
        case Failure(_) => Failure(Unauthorized)
        case Success(found) =>
          if found.None? then Failure(Unauthorized)
          else
            match jwt.generate(found.value.id, AccessToken)
            case Failure(e) => Failure(Passed(e))
            case Success(t) =>
              match jwt.generate(found.value.id, RefreshToken)
              case Failure(e) => Failure(Passed(e))
              case Success(rt) => Success(RefreshResponse(t, rt))
  }

  // ---------------------------------------------------------------------
  // Properties
  // ---------------------------------------------------------------------

  /** An email already on file is refused and the store stays as it was. */
  lemma RegisterRejectsDuplicate(s: RepoState, jwt: Jwt, hasher: Hasher, req: RegisterRequest)
    requires !s.faults.lookup && EmailTaken(s.rows, req.email)
    ensures RegisterSpec(s, jwt, hasher, req) == (Failure(EmailAlreadyExists), s)
  {
    assert FindEmail(s.rows, req.email).Some?;
  }

  /** A store lookup error is reported wrapped, never as a duplicate or a
      credentials error, and changes nothing. */
  lemma LookupErrorsWrapped(s: RepoState, jwt: Jwt, hasher: Hasher, req: RegisterRequest, login: LoginRequest)
    requires s.faults.lookup
    ensures RegisterSpec(s, jwt, hasher, req) == (Failure(Wrapped("error checking existing user", LookupError)), s)
    ensures LoginSpec(s, jwt, hasher, login) == Failure(Wrapped("error finding user", LookupError))
  {
  }

  /** `Register` either leaves the store alone or appends exactly one row:
      a new email, the hashed password (not the plain one), no storage used
      of a 15000 limit, local provider, the next id. The response shows
      that row; a failed token step still leaves it in place. */
  lemma RegisterAddsOneUser(s: RepoState, jwt: Jwt, hasher: Hasher, req: RegisterRequest)
    requires RegisterSpec(s, jwt, hasher, req).1 != s
    ensures var s' := RegisterSpec(s, jwt, hasher, req).1;
      && !EmailTaken(s.rows, req.email)
      && hasher.hash(req.password).Success?
      && |s'.rows| == |s.rows| + 1 && s'.rows[..|s.rows|] == s.rows
      && s'.now == s.now && s'.faults == s.faults
      && var u := s'.rows[|s.rows|];
         && u == NewLocalUser(req, hasher.hash(req.password).value).(id := |s.rows| + 1, createdAt := s.now, updatedAt := s.now)
         && u.password == hasher.hash(req.password).value
         && u.storageUsed == 0 && u.storageLimit == 15000 && u.provider == LocalAuth
         && (RegisterSpec(s, jwt, hasher, req).0.Success? ==> RegisterSpec(s, jwt, hasher, req).0.value.user == ToResponse(u))
  {
    var s' := RegisterSpec(s, jwt, hasher, req).1;
    assert FindByEmail(s, req.email) == Success(None);
    var u := NewLocalUser(req, hasher.hash(req.password).value);
    assert Create(s, u).Success?;
    assert s'.rows == s.rows + [Create(s, u).value.1];
  }

  /** A successful register always writes: it adds one row. */
  lemma RegisterSuccessWrites(s: RepoState, jwt: Jwt, hasher: Hasher, req: RegisterRequest)
    ensures RegisterSpec(s, jwt, hasher, req).0.Success? ==>
      |RegisterSpec(s, jwt, hasher, req).1.rows| == |s.rows| + 1
  {
  }

  /** An unknown email and a wrong password give the same error, and
      nothing else gives it. */
  lemma LoginSameErrorForUnknownAndWrong(s: RepoState, jwt: Jwt, hasher: Hasher, req: LoginRequest)
    requires !s.faults.lookup
    ensures LoginSpec(s, jwt, hasher, req) == Failure(InvalidCredentials) <==>
      (!EmailTaken(s.rows, req.email) ||
       !hasher.check(FindEmail(s.rows, req.email).value.password, req.password))
  {
  }

  /** A successful login is for the row with that email whose stored hash
      checks against the given password. */
  lemma LoginSucceedsOnlyWithPassword(s: RepoState, jwt: Jwt, hasher: Hasher, req: LoginRequest)
    requires RepoValid(s) && LoginSpec(s, jwt, hasher, req).Success?
    ensures exists i :: (0 <= i < |s.rows| && s.rows[i].email == req.email &&
      hasher.check(s.rows[i].password, req.password) &&
      LoginSpec(s, jwt, hasher, req).value.user == ToResponse(s.rows[i]))
  {
    var u := FindEmail(s.rows, req.email).value;
    var i :| 0 <= i < |s.rows| && s.rows[i] == u;
  }

  /** `GetUserByToken` succeeds exactly for a valid access token of a user
      on file, and returns that user. */
  lemma GetUserByTokenAccessOnly(s: RepoState, jwt: Jwt, token: string)
    ensures GetUserByTokenSpec(s, jwt, token).Success? <==>
      jwt.validate(token).Success? && jwt.validate(token).value.1 == AccessToken &&
      !s.faults.lookup && 1 <= jwt.validate(token).value.0 <= |s.rows|
    ensures GetUserByTokenSpec(s, jwt, token).Success? ==>
      GetUserByTokenSpec(s, jwt, token).value == s.rows[jwt.validate(token).value.0 - 1]
  {
  }

  /** `RefreshTokens` answers `ErrUnauthorized` exactly for a valid token of
      the wrong type, a failing lookup or a missing user. */
  lemma RefreshUnauthorized(s: RepoState, jwt: Jwt, token: string)
    ensures RefreshTokensSpec(s, jwt, token) == Failure(Unauthorized) <==>
      jwt.validate(token).Success? &&
      (jwt.validate(token).value.1 != RefreshToken || s.faults.lookup ||
       !(1 <= jwt.validate(token).value.0 <= |s.rows|))
  {
  }

  /** Token-type discipline: a token that authenticates a request cannot be
      used to refresh, and one that refreshes cannot authenticate. */
  lemma TokenTypesDisjoint(s: RepoState, jwt: Jwt, token: string)
    ensures GetUserByTokenSpec(s, jwt, token).Success? ==> RefreshTokensSpec(s, jwt, token) == Failure(Unauthorized)
    ensures RefreshTokensSpec(s, jwt, token).Success? ==> GetUserByTokenSpec(s, jwt, token) == Failure(Unauthorized)
  {
  }

  // ---------------------------------------------------------------------
  // The service
  // ---------------------------------------------------------------------

  /** `authService`: the user store, the token service and the hasher. */
  class AuthService {
    const repo: UserRepo
    const jwt: Jwt
    const hasher: Hasher

    constructor (repo: UserRepo, jwt: Jwt, hasher: Hasher)
      ensures this.repo == repo && this.jwt == jwt && this.hasher == hasher
    {
      this.repo := repo;
      this.jwt := jwt;
      this.hasher := hasher;
    }

    method Register(req: RegisterRequest) returns (r: Result<AuthResponse, AuthError>)
      requires repo.Valid()
      modifies repo
      ensures repo.Valid()
      ensures (r, repo.State()) == RegisterSpec(old(repo.State()), jwt, hasher, req)
    {
      var existing := FindByEmail(repo.State(), req.email);
      if existing.Failure? {
        return Failure(Wrapped("error checking existing user", existing.error));
      }
      if existing.value.Some? {
        return Failure(EmailAlreadyExists);
      }
      var hashed := hasher.hash(req.password);
      if hashed.Failure? {
        return Failure(Passed(hashed.error));
      }
      var created := repo.Insert(NewLocalUser(req, hashed.value));
      if created.Failure? {
        return Failure(Wrapped("error creating user", created.error));
      }
      var user := created.value;
      var token := jwt.generate(user.id, AccessToken);
      if token.Failure? {
        return Failure(Wrapped("error generating token", token.error));
      }
      var refresh := jwt.generate(user.id, RefreshToken);
      if refresh.Failure? {
        return Failure(Wrapped("error generating refresh token", refresh.error));
      }
      user := user.(password := "");
      r := Success(AuthResponse(ToResponse(user), token.value, refresh.value));
    }

    method Login(req: LoginRequest) returns (r: Result<AuthResponse, AuthError>)
      ensures r == LoginSpec(repo.State(), jwt, hasher, req)
    {
      var found := FindByEmail(repo.State(), req.email);
      if found.Failure? {
        return Failure(Wrapped("error finding user", found.error));
      }
      if found.value.None? {
        return Failure(InvalidCredentials);
      }
      var user := found.value.value;
      if !hasher.check(user.password, req.password) {
        return Failure(InvalidCredentials);
      }
      var token := jwt.generate(user.id, AccessToken);
      if token.Failure? {
        return Failure(Wrapped("error generating token", token.error));
      }
      var refresh := jwt.generate(user.id, RefreshToken);
      if refresh.Failure? {
        return Failure(Wrapped("error generating refresh token", refresh.error));
      }
      user := user.(password := "");
      r := Success(AuthResponse(ToResponse(user), token.value, refresh.value));
    }

    method GetUserByToken(token: string) returns (r: Result<User, AuthError>)
      ensures r == GetUserByTokenSpec(repo.State(), jwt, token)
    {
      var claim := jwt.validate(token);
      if claim.Failure? {
        return Failure(Passed(claim.error));
      }
      var (userId, tokenType) := claim.value;
      if tokenType != AccessToken {
        return Failure(Unauthorized);
      }
      var found := GetById(repo.State(), userId);
      if found.Failure? {
        return Failure(Passed(found.error));
      }
      if found.value.None? {
        return Failure(Plain("user not found"));
      }
      r := Success(found.value.value);
    }

    method RefreshTokens(token: string) returns (r: Result<RefreshResponse, AuthError>)
      ensures r == RefreshTokensSpec(repo.State(), jwt, token)
    {
      var claim := jwt.validate(token);
      if claim.Failure? {
        return Failure(Passed(claim.error));
      }
      var (userId, tokenType) := claim.value;
      if tokenType != RefreshToken {
        return Failure(Unauthorized);
      }
      var found := GetById(repo.State(), userId);
      if found.Failure? || found.value.None? {
        return Failure(Unauthorized);
      }
      var user := found.value.value;
      var access := jwt.generate(user.id, AccessToken);
      if access.Failure? {
        return Failure(Passed(access.error));
      }
      var refresh := jwt.generate(user.id, RefreshToken);
      if refresh.Failure? {
        return Failure(Passed(refresh.error));
      }
      r := Success(RefreshResponse(access.value, refresh.value));
    }
  }
}
