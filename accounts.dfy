/** The user records the services work on: the `User` row and its provider
    (internal/model/user.go), the request and response shapes
    (internal/model/user_dto.go), and the user store behind
    `repository.UserRepository`, whose lookups answer "not found" with no
    user and no error. */
module Accounts {
  import opened Wrappers
  import opened Validation

  // ---------------------------------------------------------------------
  // Rows and projections
  // ---------------------------------------------------------------------

  /** `model.AuthProvider`. */
  datatype AuthProvider = LocalAuth | GoogleAuth | FacebookAuth

  /** The stored text of each provider. */
  function ProviderName(p: AuthProvider): string {
    match p
    case LocalAuth => "local"
    case GoogleAuth => "google"
    case FacebookAuth => "facebook"
  }

  /** A `users` row. The storage figures are whole numbers here; the
      timestamps are the store's clock readings. */
  datatype User = User(
    id: nat,
    email: string,
    username: string,
    password: string,
    firstName: string,
    lastName: string,
    storageUsed: int,
    storageLimit: int,
    createdAt: nat,
    updatedAt: nat,
    provider: AuthProvider,
    providerId: string)

  /** `model.UserResponse`: what the API shows of a user. */
  datatype UserResponse = UserResponse(
    id: nat,
    email: string,
    firstName: string,
    lastName: string,
    storageUsed: int,
    storageLimit: int,
    createdAt: nat,
    updatedAt: nat)

  /** `model.AuthResponse`: the user and the two tokens. */
  datatype AuthResponse = AuthResponse(user: UserResponse, token: string, refreshToken: string)

  /** `User.ToResponse`: a field-by-field copy of the public fields. */
  function ToResponse(u: User): UserResponse {
    UserResponse(u.id, u.email, u.firstName, u.lastName, u.storageUsed, u.storageLimit, u.createdAt, u.updatedAt)
  }

  /** Two users agree on every field the response shows. */
  predicate SamePublicFields(u: User, v: User) {
    && u.id == v.id && u.email == v.email && u.firstName == v.firstName && u.lastName == v.lastName
    && u.storageUsed == v.storageUsed && u.storageLimit == v.storageLimit
    && u.createdAt == v.createdAt && u.updatedAt == v.updatedAt
  }

  /** The response determines the public fields and nothing else: the
      password, username, provider and provider id never reach it. */
  lemma ToResponseShowsExactlyPublic(u: User, v: User)
    ensures ToResponse(u) == ToResponse(v) <==> SamePublicFields(u, v)
    ensures ToResponse(u.(password := v.password, username := v.username,
                          provider := v.provider, providerId := v.providerId)) == ToResponse(u)
  {
  }

  // ---------------------------------------------------------------------
  // Requests and their validation tags
  // ---------------------------------------------------------------------

  /** `model.RegisterRequest`: email `required,email`, password
      `required,min=8,strong_password`, both names `required`. */
  datatype RegisterRequest = RegisterRequest(email: string, password: string, firstName: string, lastName: string)

  /** `model.LoginRequest`: email `required,email`, password `required`. */
  datatype LoginRequest = LoginRequest(email: string, password: string)

  /** The first failing tag of one field, if any: the validator checks a
      field's tags in order and reports only the first that fails. */
  function FirstFailure(field: string, checks: seq<(string, string, bool)>): (r: seq<FieldError>)
    ensures |r| <= 1
    ensures r == [] <==> forall i :: 0 <= i < |checks| ==> checks[i].2
    ensures r != [] ==> (r[0].field == field &&
      exists i :: 0 <= i < |checks| && !checks[i].2 && r[0].tag == checks[i].0 && r[0].param == checks[i].1 &&
        forall k :: 0 <= k < i ==> checks[k].2)
  {
    if checks == [] then []
    else if !checks[0].2 then [FieldError(field, checks[0].0, checks[0].1)]
    else
      var rest := FirstFailure(field, checks[1..]);
      assert forall i :: 1 <= i < |checks| ==> checks[i] == checks[1..][i - 1];
      rest
  }

  /** The validator's errors for a `RegisterRequest`, field by field in
      declaration order. The `email` tag's own pattern is the `isEmail`
      parameter. */
  function RegisterErrors(req: RegisterRequest, isEmail: string -> bool): seq<FieldError> {
    FirstFailure("email", [("required", "", req.email != ""), ("email", "", isEmail(req.email))])
    + FirstFailure("password", [("required", "", req.password != ""), ("min", "8", |req.password| >= 8),
                                ("strong_password", "", IsStrong(req.password))])
    + FirstFailure("first_name", [("required", "", req.firstName != "")])
    + FirstFailure("last_name", [("required", "", req.lastName != "")])
  }

  /** A register request passes exactly when all four fields are non-empty,
      the email is well formed, and the password has at least eight
      characters and is strong. */
  lemma RegisterValid(req: RegisterRequest, isEmail: string -> bool)
    ensures RegisterErrors(req, isEmail) == [] <==>
      req.email != "" && isEmail(req.email) && |req.password| >= 8 && IsStrong(req.password) &&
      req.firstName != "" && req.lastName != ""
  {
    var e := req.email != "";
    var m := isEmail(req.email);
    var p := req.password != "";
    var n := |req.password| >= 8;
    var st := IsStrong(req.password);
    NoFailureOfTwo("email", "required", "", e, "email", "", m);
    NoFailureOfThree("password", "required", "", p, "min", "8", n, "strong_password", "", st);
    NoFailureOfOne("first_name", "required", "", req.firstName != "");
    NoFailureOfOne("last_name", "required", "", req.lastName != "");
  }

  lemma NoFailureOfOne(field: string, t0: string, p0: string, b0: bool)
    ensures FirstFailure(field, [(t0, p0, b0)]) == [] <==> b0
  {
    assert [(t0, p0, b0)][0].2 == b0;
  }

  lemma NoFailureOfTwo(field: string, t0: string, p0: string, b0: bool, t1: string, p1: string, b1: bool)
    ensures FirstFailure(field, [(t0, p0, b0), (t1, p1, b1)]) == [] <==> b0 && b1
  {
    var c := [(t0, p0, b0), (t1, p1, b1)];
    assert c[0].2 == b0 && c[1].2 == b1;
  }

  lemma NoFailureOfThree(field: string, t0: string, p0: string, b0: bool, t1: string, p1: string, b1: bool,
                         t2: string, p2: string, b2: bool)
    ensures FirstFailure(field, [(t0, p0, b0), (t1, p1, b1), (t2, p2, b2)]) == [] <==> b0 && b1 && b2
  {
    var c := [(t0, p0, b0), (t1, p1, b1), (t2, p2, b2)];
    assert c[0].2 == b0 && c[1].2 == b1 && c[2].2 == b2;
  }

  // ---------------------------------------------------------------------
  // The user store
  // ---------------------------------------------------------------------

  /** Which store operations fail, as the database server decides. */
  datatype RepoFaults = RepoFaults(lookup: bool, create: bool, update: bool)

  const LookupError := "lookup failed"
  const WriteError := "write failed"

  /** The rows in insertion order (row `i` has id `i + 1`), the clock that
      stamps `created_at` / `updated_at`, and the failing operations. */
  datatype RepoState = RepoState(rows: seq<User>, now: nat, faults: RepoFaults)

  /** The row invariant: ids are positions, emails and usernames unique
      (the `unique` tags of user.go). */
  ghost predicate RepoValid(s: RepoState) {
    && (forall i :: 0 <= i < |s.rows| ==> s.rows[i].id == i + 1)
    && (forall i, j :: 0 <= i < j < |s.rows| ==> s.rows[i].email != s.rows[j].email)
    && (forall i, j :: 0 <= i < j < |s.rows| ==> s.rows[i].username != s.rows[j].username)
  }

  /** The first row with the given email. */
  function FindEmail(rows: seq<User>, email: string): (r: Option<User>)
    ensures r.Some? <==> exists i :: 0 <= i < |rows| && rows[i].email == email
    ensures r.Some? ==> r.value in rows && r.value.email == email
  {
    if rows == [] then None
    else if rows[0].email == email then Some(rows[0])
    else
      var r := FindEmail(rows[1..], email);
      assert forall i :: 1 <= i < |rows| ==> rows[i] == rows[1..][i - 1];
      r
  }

  predicate EmailTaken(rows: seq<User>, email: string) {
    exists i :: 0 <= i < |rows| && rows[i].email == email
  }

  predicate UsernameTaken(rows: seq<User>, username: string, except: nat) {
    exists i :: 0 <= i < |rows| && rows[i].username == username && rows[i].id != except
  }

  /** `FindByEmail`: an error, no user, or the user with that email. */
  function FindByEmail(s: RepoState, email: string): Result<Option<User>, string> {
    if s.faults.lookup then Failure(LookupError) else Success(FindEmail(s.rows, email))
  }

  /** `GetById`: an error, no user, or the user with that id. */
  function GetById(s: RepoState, id: nat): Result<Option<User>, string> {
    if s.faults.lookup then Failure(LookupError)
    else if 1 <= id <= |s.rows| then Success(Some(s.rows[id - 1]))
    else Success(None)
  }

  /** `Create`: insert with the next id and the clock as both timestamps;
      a unique email or username already present, or a failing server,
      rejects the insert. */
  function Create(s: RepoState, u: User): Result<(RepoState, User), string> {
    if s.faults.create || EmailTaken(s.rows, u.email) || UsernameTaken(s.rows, u.username, 0) then Failure(WriteError)
    else
      var stored := u.(id := |s.rows| + 1, createdAt := s.now, updatedAt := s.now);
      Success((s.(rows := s.rows + [stored]), stored))
  }

  /** `Update` (gorm's `Save` of a stored row): every field is written and
      `updated_at` is stamped, subject to the unique columns. */
  function Update(s: RepoState, u: User): Result<(RepoState, User), string>
    requires 1 <= u.id <= |s.rows|
  {
    if s.faults.update || UsernameTaken(s.rows, u.username, u.id)
       || exists i :: 0 <= i < |s.rows| && s.rows[i].email == u.email && s.rows[i].id != u.id
    then Failure(WriteError)
    else
      var stored := u.(updatedAt := s.now);
      Success((s.(rows := s.rows[u.id - 1 := stored]), stored))
  }

  /** Inserting and updating keep the row invariant. */
  lemma CreateKeepsValid(s: RepoState, u: User)
    requires RepoValid(s)
    ensures Create(s, u).Success? ==> RepoValid(Create(s, u).value.0)
  {
    if Create(s, u).Success? {
      var rows := Create(s, u).value.0.rows;
      forall i, j | 0 <= i < j < |rows|
        ensures rows[i].email != rows[j].email && rows[i].username != rows[j].username
      {
        if j == |rows| - 1 {
          assert rows[i] == s.rows[i];
        }
      }
    }
  }

  lemma UpdateKeepsValid(s: RepoState, u: User)
    requires RepoValid(s) && 1 <= u.id <= |s.rows|
    ensures Update(s, u).Success? ==> RepoValid(Update(s, u).value.0)
  {
    if Update(s, u).Success? {
      var rows := Update(s, u).value.0.rows;
      forall i, j | 0 <= i < j < |rows|
        ensures rows[i].email != rows[j].email && rows[i].username != rows[j].username
      {
        if i == u.id - 1 {
          assert s.rows[j].id == j + 1;
        } else if j == u.id - 1 {
          assert s.rows[i].id == i + 1;
        }
      }
    }
  }

  /** With the invariant, the email lookup finds the one row with that
      email. */
  lemma FindEmailUnique(s: RepoState, email: string, i: nat)
    requires RepoValid(s) && i < |s.rows| && s.rows[i].email == email
    ensures FindEmail(s.rows, email) == Some(s.rows[i])
  {
    var r := FindEmail(s.rows, email).value;
    var k :| 0 <= k < |s.rows| && s.rows[k] == r;
  }

  /** The database behind `userRepositoryImpl`. */
  class UserRepo {
    var rows: seq<User>
    var now: nat
    var faults: RepoFaults

    function State(): RepoState
      reads this
    {
      RepoState(rows, now, faults)
    }

    ghost predicate Valid()
      reads this
    {
      RepoValid(State())
    }

    constructor (now: nat, faults: RepoFaults)
      ensures Valid() && State() == RepoState([], now, faults)
    {
      this.rows := [];
      this.now := now;
      this.faults := faults;
    }

    /** `Create(ctx, user)`: on success the stored row (with its id and
        timestamps) is what the caller's `*model.User` now holds. */
    method Insert(u: User) returns (r: Result<User, string>)
      requires Valid()
      modifies this
      ensures Valid() && now == old(now) && faults == old(faults)
      ensures match Create(old(State()), u)
              case Failure(e) => r == Failure(e) && rows == old(rows)
              case Success(p) => r == Success(p.1) && State() == p.0
    {
      CreateKeepsValid(State(), u);
      match Create(State(), u)
      case Failure(e) =>
        r := Failure(e);
      case Success(p) =>
        rows := p.0.rows;
        r := Success(p.1);
    }

    /** `Update(ctx, user)`. */
    method Save(u: User) returns (r: Result<User, string>)
      requires Valid() && 1 <= u.id <= |rows|
      modifies this
      ensures Valid() && now == old(now) && faults == old(faults)
      ensures match Update(old(State()), u)
              case Failure(e) => r == Failure(e) && rows == old(rows)
              case Success(p) => r == Success(p.1) && State() == p.0
    {
      UpdateKeepsValid(State(), u);
      match Update(State(), u)
      case Failure(e) =>
        r := Failure(e);
      case Success(p) =>
        rows := p.0.rows;
        r := Success(p.1);
    }
  }
}
