/** internal/service/oauth_service.go: choosing the provider by name, and
    OAuth login, which creates an account for a new email, links a local
    account to the provider, or leaves an account of another provider as
    it is. What the provider returns for the access token (a network call)
    is an input. */
module OAuthServices {
  import opened Wrappers
  import opened Text
  import opened GoInt
  import opened Accounts
  import opened AuthServices

  /** `model.OAuthUserInfo` as the provider reports it. */
  datatype OAuthUserInfo = OAuthUserInfo(id: string, email: string, firstName: string, lastName: string, picture: string)

  datatype OAuthError =
    | UnsupportedProvider     // "unsupported oauth provider"
    | InvalidOAuthToken       // "invalid oauth token", for the providers' own use
    | MissingEmail            // "oauth provider did not return an email"
    | Raw(cause: string)      // an error returned as it came

  /** `GetProvider`: "google" or "facebook" in any letter case. */
  function GetProvider(name: string): Result<AuthProvider, OAuthError> {
    var lower := ToLower(name);
    if lower == "google" then Success(GoogleAuth)
    else if lower == "facebook" then Success(FacebookAuth)
    else Failure(UnsupportedProvider)
  }

  /** The provider switch inside `Login`, with "local" as its default. */
  function ProviderOf(name: string): AuthProvider {
    var lower := ToLower(name);
    if lower == "google" then GoogleAuth
    else if lower == "facebook" then FacebookAuth
    else LocalAuth
  }

  /** The accepted names are exactly those whose lower case is "google" or
      "facebook", and letter case never changes the answer. */
  lemma GetProviderAccepts(name: string)
    ensures GetProvider(name).Success? <==> ToLower(name) == "google" || ToLower(name) == "facebook"
    ensures GetProvider(ToLower(name)) == GetProvider(name)
  {
    ToLowerIdempotent(name);
  }

  /** Once `GetProvider` has succeeded, the switch agrees with it and its
      "local" default is never taken. */
  lemma ProviderSwitchAgrees(name: string)
    requires GetProvider(name).Success?
    ensures ProviderOf(name) == GetProvider(name).value && ProviderOf(name) != LocalAuth
  {
  }

  /** `generateUsername`: the text before the first '@', then the clock's
      nanoseconds modulo 10000 in decimal (Go's `%` keeps the dividend's
      sign). */
  function GenerateUsername(email: string, nanos: int): string {
    Split(email, '@')[0] + IntDecimal(Rem(nanos, 10000))
  }

  /** For a clock after 1970 the suffix is one to four digits giving a
      number below 10000. */
  lemma UsernameShape(email: string, nanos: int)
    requires nanos >= 0
    ensures var base := Before(email, '@');
            var u := GenerateUsername(email, nanos);
            && u[..|base|] == base
            && var suffix := u[|base|..];
               && 1 <= |suffix| <= 4 && AllDigits(suffix) && Value(suffix) < 10000
               && Value(suffix) == nanos % 10000
  {
    SplitHead(email, '@');
    var d := IntDecimal(Rem(nanos, 10000));
    var base := Before(email, '@');
    var u := GenerateUsername(email, nanos);
    assert u == base + d;
    assert u[|base|..] == d;
    assert Rem(nanos, 10000) == nanos % 10000;
    assert d == Decimal(nanos % 10000);
  }

  /** The row `Login` inserts for a new email. */
  function OAuthUser(info: OAuthUserInfo, username: string, password: string, p: AuthProvider): User {
    User(0, info.email, username, password, info.firstName, info.lastName, 0, 15000, 0, 0, p, info.id)
  }

  /** The two tokens, errors returned as they came. */
  function RawTokens(jwt: Jwt, u: User): Result<AuthResponse, OAuthError> {
    match jwt.generate(u.id, AccessToken)
    case Failure(e) => Failure(Raw(e))
    case Success(t) =>
      match jwt.generate(u.id, RefreshToken)
      case Failure(e) => Failure(Raw(e))
      case Success(rt) => Success(AuthResponse(ToResponse(u), t, rt))
  }

  lemma FoundIsStored(s: RepoState, email: string)
    requires RepoValid(s) && FindEmail(s.rows, email).Some?
    ensures var u := FindEmail(s.rows, email).value;
            1 <= u.id <= |s.rows| && s.rows[u.id - 1] == u
  {
    var u := FindEmail(s.rows, email).value;
    var k :| 0 <= k < |s.rows| && s.rows[k] == u;
  }

  lemma FoundInRange(s: RepoState, email: string)
    requires RepoValid(s)
    ensures FindEmail(s.rows, email).Some? ==> 1 <= FindEmail(s.rows, email).value.id <= |s.rows|
  {
    if FindEmail(s.rows, email).Some? {
      FoundIsStored(s, email);
    }
  }

  /** What happens to the account: create, link a local account, or keep. */
  function Account(s: RepoState, found: Option<User>, info: OAuthUserInfo, p: AuthProvider,
                   username: string, password: string): Result<(RepoState, User), string>
    requires RepoValid(s)
    requires found.Some? ==> 1 <= found.value.id <= |s.rows|
  {
    if found.None? then Create(s, OAuthUser(info, username, password, p))
    else if found.value.provider == LocalAuth then Update(s, found.value.(provider := p, providerId := info.id))
    else Success((s, found.value))
  }

  /** OAuth `Login`: the reply and the store it leaves. `info` is what the
      provider answered for the token, `nanos` the clock reading used for
      the username, `password` the random UUID stored for a new account. */
  function OAuthLoginSpec(s: RepoState, jwt: Jwt, providerName: string, info: Result<OAuthUserInfo, string>,
                     nanos: int, password: string): (Result<AuthResponse, OAuthError>, RepoState)
    requires RepoValid(s)
  {
    match GetProvider(providerName)
    case Failure(e) => (Failure(e), s)
    case Success(_) =>
      match info
      case Failure(e) => (Failure(Raw(e)), s)
      case Success(ui) =>
        if ui.email == "" then (Failure(MissingEmail), s)
        else
          match FindByEmail(s, ui.email)
          case Failure(e) => (Failure(Raw(e)), s)
          case Success(found) =>
            FoundInRange(s, ui.email);
            match Account(s, found, ui, ProviderOf(providerName), GenerateUsername(ui.email, nanos), password)
            case Failure(e) => (Failure(Raw(e)), s)
            case Success(p) => (RawTokens(jwt, p.1), p.0)
  }

  // ---------------------------------------------------------------------
  // Properties
  // ---------------------------------------------------------------------

  /** An unsupported provider fails before the provider or the store is
      asked anything; a missing email fails before the store is touched. */
  lemma LoginEarlyFailures(s: RepoState, jwt: Jwt, providerName: string, info: Result<OAuthUserInfo, string>,
                           nanos: int, password: string)
    requires RepoValid(s)
    ensures GetProvider(providerName).Failure? ==>
      OAuthLoginSpec(s, jwt, providerName, info, nanos, password) == (Failure(UnsupportedProvider), s)
    ensures GetProvider(providerName).Success? && info.Success? && info.value.email == "" ==>
      OAuthLoginSpec(s, jwt, providerName, info, nanos, password) == (Failure(MissingEmail), s)
  {
  }

  /** A new email gets exactly one new row: the provider's name, email and
      id, the generated username, the random password, no storage used of
      a 15000 limit. */
  lemma LoginCreatesForNewEmail(s: RepoState, jwt: Jwt, providerName: string, info: OAuthUserInfo,
                                nanos: int, password: string)
    requires RepoValid(s) && GetProvider(providerName).Success? && info.email != ""
    requires !s.faults.lookup && !EmailTaken(s.rows, info.email)
    requires OAuthLoginSpec(s, jwt, providerName, Success(info), nanos, password).1 != s
    ensures var s' := OAuthLoginSpec(s, jwt, providerName, Success(info), nanos, password).1;
      && s'.rows == s.rows + [s'.rows[|s.rows|]]
      && var u := s'.rows[|s.rows|];
         && u.id == |s.rows| + 1 && u.email == info.email && u.providerId == info.id
         && u.provider == GetProvider(providerName).value
         && u.username == GenerateUsername(info.email, nanos) && u.password == password
         && u.storageUsed == 0 && u.storageLimit == 15000
  {
    var u := OAuthUser(info, GenerateUsername(info.email, nanos), password, ProviderOf(providerName));
    assert Create(s, u).Success?;
  }

  /** An existing local account is linked: its row gets the provider and
      the provider's id, and no other row changes. */
  lemma LoginLinksLocalAccount(s: RepoState, jwt: Jwt, providerName: string, info: OAuthUserInfo,
                               nanos: int, password: string, i: nat)
    requires RepoValid(s) && GetProvider(providerName).Success? && info.email != ""
    requires !s.faults.lookup && i < |s.rows| && s.rows[i].email == info.email
    requires s.rows[i].provider == LocalAuth
    requires OAuthLoginSpec(s, jwt, providerName, Success(info), nanos, password).1 != s
    ensures var s' := OAuthLoginSpec(s, jwt, providerName, Success(info), nanos, password).1;
      && |s'.rows| == |s.rows|
      && s'.rows[i] == s.rows[i].(provider := GetProvider(providerName).value, providerId := info.id, updatedAt := s.now)
      && forall k :: 0 <= k < |s.rows| && k != i ==> s'.rows[k] == s.rows[k]
  {
    FindEmailUnique(s, info.email, i);
  }

  /** A successful login for a new email always writes: it adds one row. */
  lemma LoginSuccessWritesNewEmail(s: RepoState, jwt: Jwt, providerName: string, info: OAuthUserInfo,
                                   nanos: int, password: string)
    requires RepoValid(s) && !EmailTaken(s.rows, info.email)
    ensures OAuthLoginSpec(s, jwt, providerName, Success(info), nanos, password).0.Success? ==>
      |OAuthLoginSpec(s, jwt, providerName, Success(info), nanos, password).1.rows| == |s.rows| + 1
  {
  }

  /** A successful login for the email of a local account always writes:
      that row now names the provider. */
  lemma LoginSuccessWritesLocalAccount(s: RepoState, jwt: Jwt, providerName: string, info: OAuthUserInfo,
                                       nanos: int, password: string, i: nat)
    requires RepoValid(s) && i < |s.rows| && s.rows[i].email == info.email && s.rows[i].provider == LocalAuth
    ensures var (r, s') := OAuthLoginSpec(s, jwt, providerName, Success(info), nanos, password);
      r.Success? ==> && GetProvider(providerName).Success? && |s'.rows| == |s.rows|
                     && s'.rows[i].provider == GetProvider(providerName).value != LocalAuth
  {
    FindEmailUnique(s, info.email, i);
  }

  /** An account of another provider is left exactly as it is, whichever
      provider the login came through. */
  lemma LoginLeavesOtherProvider(s: RepoState, jwt: Jwt, providerName: string, info: OAuthUserInfo,
                                 nanos: int, password: string, i: nat)
    requires RepoValid(s) && GetProvider(providerName).Success? && info.email != ""
    requires !s.faults.lookup && i < |s.rows| && s.rows[i].email == info.email
    requires s.rows[i].provider != LocalAuth
    ensures OAuthLoginSpec(s, jwt, providerName, Success(info), nanos, password) == (RawTokens(jwt, s.rows[i]), s)
  {
    FindEmailUnique(s, info.email, i);
  }

  // ---------------------------------------------------------------------
  // The service
  // ---------------------------------------------------------------------

  /** `oauthService`: the user store and the token service. The provider
      configurations are not used by the modelled logic. */
  class OAuthService {
    const repo: UserRepo
    const jwt: Jwt

    constructor (repo: UserRepo, jwt: Jwt)
      ensures this.repo == repo && this.jwt == jwt
    {
      this.repo := repo;
      this.jwt := jwt;
    }

    method Login(providerName: string, info: Result<OAuthUserInfo, string>, nanos: int, password: string)
      returns (r: Result<AuthResponse, OAuthError>)
      requires repo.Valid()
      modifies repo
      ensures repo.Valid()
      ensures (r, repo.State()) == OAuthLoginSpec(old(repo.State()), jwt, providerName, info, nanos, password)
    {
      var provider := GetProvider(providerName);
      if provider.Failure? {
        return Failure(provider.error);
      }
      if info.Failure? {
        return Failure(Raw(info.error));
      }
      var userInfo := info.value;
      if userInfo.email == "" {
        return Failure(MissingEmail);
      }
      var found := FindByEmail(repo.State(), userInfo.email);
      if found.Failure? {
        return Failure(Raw(found.error));
      }
      var authProvider := ProviderOf(providerName);
      var user: User;
      if found.value.None? {
        var created := repo.Insert(OAuthUser(userInfo, GenerateUsername(userInfo.email, nanos), password, authProvider));
        if created.Failure? {
          return Failure(Raw(created.error));
        }
        user := created.value;
      } else if found.value.value.provider == LocalAuth {
        FoundIsStored(repo.State(), userInfo.email);
        user := found.value.value.(provider := authProvider, providerId := userInfo.id);
        var saved := repo.Save(user);
        if saved.Failure? {
          return Failure(Raw(saved.error));
        }
        user := saved.value;
      } else {
        user := found.value.value;
      }
      var access := jwt.generate(user.id, AccessToken);
      if access.Failure? {
        return Failure(Raw(access.error));
      }
      var refresh := jwt.generate(user.id, RefreshToken);
      if refresh.Failure? {
        return Failure(Raw(refresh.error));
      }
      r := Success(AuthResponse(ToResponse(user), access.value, refresh.value));
    }
  }
}
