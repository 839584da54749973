# Drive backend core in Dafny

This project models the core of the `drive` Go backend and proves properties of the model.

- **Schema-migration engine** (`internal/database/migration`). An ordered list of migration units goes to a `Migrator`. The migrator keeps a record table of applied unit ids. `Migrate()` applies the pending units in registration order. `Rollback(n)` undoes the `n` most recently applied units. Each unit runs in its own transaction.
- **Surrounding services** that the rest of the backend relies on:
  - the request validators (`util/validator.go`, `util/simple_validator.go`);
  - the bearer-token middleware;
  - local and OAuth authentication over a user store;
  - the JSON response envelope;
  - the configuration loader;
  - the user DTO projection;
  - the application error type.

Files and modules:

- `wrappers.dfy` (module `Wrappers`): `Option` and `Result`.
- `go_int.dfy` (module `GoInt`): Go's truncating `/` and `%`.
- `text.dfy` (module `Text`): `strings.Split`, ASCII `strings.ToLower` and `%d` formatting.
- `migration.dfy` (module `Migration`): the database as seen by the engine (`Store`), the `Migrator` class with `Migrate` and `Rollback`, and the functions they are verified against.
- `migration_properties.dfy` (module `MigrationProperties`): what `Migrate` and `Rollback` guarantee.
- `migration_units.dfy` (module `MigrationUnits`): units 001–004.
- `migration_registry.dfy` (module `MigrationRegistry`): `RegisterMigrations` and concrete runs.
- `validation.dfy` (module `Validation`): the rules the two validator files share.
- `validator.dfy` (module `Validator`): `strongPassword` of `validator.go`, with the early exit.
- `simple_validator.dfy` (module `SimpleValidator`): `strongPassword` of `simple_validator.go` (a full scan) and `ValidateStruct`.
- `accounts.dfy` (module `Accounts`): users, DTOs, registration-request validity, the user repository.
- `auth_service.dfy` (module `AuthServices`): `authService`.
- `oauth_service.dfy` (module `OAuthServices`): `oauthService`.
- `auth_middleware.dfy` (module `AuthMiddleware`): `Auth` and `GetUserIDFromContext`.
- `responses.dfy` (module `Responses`): `response.go`.
- `config.dfy` (module `Config`): `config.go`.
- `app_errors.dfy` (module `AppErrors`): `util/error.go`.

How the state-changing code is modelled:

- **The engine.** The engine updates the database step by step.
  - `Migration.Store` holds the state:
    - the tables;
    - whether the record table exists;
    - the records, each with a monotonic stamp in place of the `applied_at` wall-clock time;
    - the stamp counter;
    - the store operations that fail (a `Faults` value, because failures come from the database server).
  - `Migration.Migrator` holds the unit list and works on its `Store`. Its `Migrate` and `Rollback` are loops proved equal to `MigrateSpec` and `RollbackSpec`.
  - `MigrationProperties` proves the engine's guarantees about those functions:
    - registration order;
    - fail-fast atomicity;
    - idempotence;
    - newest-first rollback;
    - skipping unknown units.
- **The services.** The services change the user store in place.
  - `Accounts.UserRepo` is the store. Its methods are proved against `Create` and `Update`.
  - `AuthServices.AuthService` and `OAuthServices.OAuthService` are classes whose methods are proved equal to the `…Spec` functions the lemmas talk about.
- **External calls.** JWT signing and validation, bcrypt, the OAuth providers' user-info calls, the clock and UUIDs are inputs to the model.

Where the code and its design description differ, the model follows the code:

- The registry registers only the users unit; the folders, files and shares units exist but are not registered. The two-unit scenario is therefore proved with an explicit list (`MigrationRegistry.MigrateTwoUnits`).
- The OAuth login builds its `AuthResponse` with a field name the struct does not have (`AccessToken:` where `model.AuthResponse` declares `Token`). The model puts the access token in `token`, as the local login does.

## Model

| member | source | states |
|---|---|---|
| `Migration.AutoMigrate` | internal/database/migration/001_create_users_table.go:18-20 | creating a table fails exactly when the database refuses its DDL; on success the table exists and no other table changes |
| `Migration.DropTable` | internal/database/migration/001_create_users_table.go:23-25 | dropping a table fails exactly when refused; on success the table is gone and no other table changes |
| `Migration.RemoveRecord` | internal/database/migration/migration.go:138 | deleting a record by id keeps exactly the records with other ids, and keeps stamp order and id uniqueness |
| `Migration.ApplyUnitWf` | internal/database/migration/migration.go:71-92 | a committed unit keeps the store invariant: stamps increase in insertion order and the id is a primary key |
| `Migration.UndoUnitWf` | internal/database/migration/migration.go:125-146 | a committed rollback of one unit keeps the store invariant |
| `Migration.AppliedIds` | internal/database/migration/migration.go:59-63 | the applied-map loop yields exactly the ids of the fetched records |
| `Migration.IndexUnits` | internal/database/migration/migration.go:109-113 | the id-to-unit loop yields the index in which a later registration of an id replaces an earlier one |
| `Migration.Migrator.constructor` | internal/database/migration/migration.go:33-39 | a new migrator has the given handle and no units |
| `Migration.Migrator.AddMigration` | internal/database/migration/migration.go:42-44 | the unit is appended at the end and earlier entries are untouched |
| `Migration.Migrator.Migrate` | internal/database/migration/migration.go:47-99 | the loop leaves exactly the state and error of `MigrateSpec` and keeps the store invariant |
| `Migration.Migrator.Rollback` | internal/database/migration/migration.go:102-152 | the loop leaves exactly the state and error of `RollbackSpec` and keeps the store invariant |
| `MigrationProperties.Pending` | internal/database/migration/migration.go:66-68 | the units to run are exactly the registered units whose id is not yet applied |
| `MigrationProperties.ApplyUnitEffect` | internal/database/migration/migration.go:71-92 | a committed unit changed the schema by its forward operation and added exactly its own record; a failure is a begin failure or names the unit |
| `MigrationProperties.ApplyAllAppends` | internal/database/migration/migration.go:83-87 | a run of committed units appends one record per unit, in order, with consecutive stamps |
| `MigrationProperties.RunPendingPrefix` | internal/database/migration/migration.go:66-96 | the loop commits a prefix of the pending units; it succeeds exactly when the prefix is all of them, and otherwise returns the error of the next pending unit, which leaves no trace |
| `MigrationProperties.MigrateCommitsPendingPrefix` | internal/database/migration/migration.go:47-99 | record-table or listing failures come before any unit runs; otherwise the pending units commit in registration order up to the first failure, which names its unit, and earlier commits stay |
| `MigrationProperties.RunPendingExtends` | internal/database/migration/migration.go:66-96 | the loop never removes or rewrites a record and never moves the clock back |
| `MigrationProperties.MigrateNeverDeletes` | internal/database/migration/migration.go:47-99 | the old records are a prefix of the records after `Migrate` |
| `MigrationProperties.RunPendingRecordsAll` | internal/database/migration/migration.go:66-96 | after a loop without error every registered id is recorded |
| `MigrationProperties.MigrateRecordsAll` | internal/database/migration/migration.go:47-99 | after a successful `Migrate` every registered unit has a record |
| `MigrationProperties.RunPendingAllApplied` | internal/database/migration/migration.go:60-68 | with every id already applied the loop changes nothing |
| `MigrationProperties.MigrateIdempotent` | internal/database/migration/migration.go:60-68 | a second `Migrate` after a successful one applies nothing and returns the same state |
| `MigrationProperties.NewestByStamp` | internal/database/migration/migration.go:105 | the fetched records are the `min(n, count)` newest, strictly newest first, and every record left out is older than every fetched one |
| `MigrationProperties.UnitIndexKeys` | internal/database/migration/migration.go:109-113 | the index knows exactly the registered ids |
| `MigrationProperties.UnitIndexLast` | internal/database/migration/migration.go:109-113 | each registered id maps to its last registration |
| `MigrationProperties.RollbackEachPrefix` | internal/database/migration/migration.go:115-149 | rollback undoes a prefix of the resolvable records, newest first, and skips unregistered ones; it succeeds exactly when the prefix is all of them, and otherwise returns the next one's error, which leaves no trace |
| `MigrationProperties.UndoAllRecords` | internal/database/migration/migration.go:137-141 | undoing removes exactly the records of the undone ids and keeps the clock |
| `MigrationProperties.RollbackRecords` | internal/database/migration/migration.go:102-152 | `Rollback(n)` adds no record, deletes none it did not fetch, and never deletes the record of an unregistered unit |
| `MigrationUnits.CreateUsersTable` | internal/database/migration/001_create_users_table.go:13-25 | id "001_create_users_table"; forward creates and backward drops table "users" |
| `MigrationUnits.CreateFoldersTable` | internal/database/migration/002_create_folders_table.go:13-25 | id "002_create_folders_table"; creates and drops "folders" |
| `MigrationUnits.CreateFilesTable` | internal/database/migration/003_create_files_table.go:13-25 | id "003_create_files_table"; creates and drops "files" |
| `MigrationUnits.CreateSharesTable` | internal/database/migration/004_create_shares_table.go:13-25 | id "004_create_shares_table"; creates and drops "shares" |
| `MigrationUnits.CreateTableEffect` | internal/database/migration/002_create_folders_table.go:18-25 | a table unit's forward and backward fail exactly when the DDL is refused, and otherwise add or remove exactly that table |
| `MigrationUnits.CreateTableRoundTrip` | internal/database/migration/003_create_files_table.go:18-25 | backward after forward restores the schema when the table was absent |
| `MigrationUnits.UnitIdsDistinct` | internal/database/migration/004_create_shares_table.go:13-15 | the four unit ids are pairwise distinct |
| `MigrationRegistry.Registered` | internal/database/migration/registry.go:13-17 | exactly one unit is registered, the users unit |
| `MigrationRegistry.RegisterMigrations` | internal/database/migration/registry.go:10-20 | a fresh migrator on the given handle holding the registered list |
| `MigrationRegistry.FreshMigrateRecordsUsersOnly` | internal/database/migration/registry.go:10-20 | on a fresh database `Migrate` creates "users" and records only its unit |
| `MigrationRegistry.MigrateTwoUnits` | internal/database/migration/migration.go:66-96 | users then folders on a fresh database: both tables created and both recorded in registration order |
| `MigrationRegistry.RollbackOneAfterTwo` | internal/database/migration/migration.go:102-152 | `Rollback(1)` after that drops only "folders" and deletes only its record |
| `MigrationRegistry.MigrateStopsAtRefusedUnit` | internal/database/migration/migration.go:78-81 | when the folders DDL is refused, users stays applied, folders leaves no trace and the error names the folders unit |
| `MigrationRegistry.RollbackSkipsUnregistered` | internal/database/migration/migration.go:116-121 | a fetched record with no registered unit is skipped without error and left in place |
| `Validation.KindOf` | internal/util/validator.go:110-121 | the switch classifies a character as upper, lower, number or punctuation/symbol exactly by its class |
| `Validation.StrongNeedsFour` | internal/util/validator.go:104-128 | a strong password has at least four characters, so the empty one is never strong |
| `Validation.DateRoundTrip` | internal/util/validator.go:136-138 | every zero-padded year-month-day is accepted and its fields read back as the numbers |
| `Validation.DateParsed` | internal/util/simple_validator.go:174-182 | every accepted date is such a rendering of its own fields |
| `Validation.TimeRange` | internal/util/validator.go:141-143 | the time pattern accepts exactly HH:MM:SS digits with hour < 24 and minute and second < 60 |
| `Validation.OctetCanonical` | internal/util/validator.go:21 | an octet alternative matches exactly the canonical decimals 0 to 255 |
| `Validation.DottedAccepted` | internal/util/validator.go:146-149 | every dotted quad of numbers 0–255 is accepted and splits back into those numbers |
| `Validation.AcceptedIsDotted` | internal/util/simple_validator.go:192-197 | every accepted IPv4 string is such a dotted quad |
| `Validation.MessageCarries` | internal/util/validator.go:78-101 | min/max messages carry the parameter, unknown tags carry the tag, and all other messages ignore the parameter |
| `Validation.FieldMessageField` | internal/util/simple_validator.go:107-111 | the field name can be read back as the text before the first space |
| `Validation.Entries` | internal/util/validator.go:55-59 | one (field, field message) pair per validation error, in the library's order |
| `Validation.StoredKeys` | internal/util/validator.go:51-59 | the map's keys are exactly the fields that failed |
| `Validation.StoredLastWins` | internal/util/simple_validator.go:76-79 | a field that failed several times keeps the message of its last error |
| `Validation.FieldMessages` | internal/util/validator.go:55-59 | the loop builds exactly the map of the errors' messages, later errors overwriting earlier ones |
| `Validation.ValidateStructWithFields` | internal/util/validator.go:46-67 | nil exactly when validation passed; a non-field error under "_general"; otherwise the per-field map |
| `Validator.StrongPassword` | internal/util/validator.go:104-128 | the early-exit loop answers exactly whether all four classes occur |
| `SimpleValidator.StrongPassword` | internal/util/simple_validator.go:140-164 | the full-scan loop answers exactly whether all four classes occur, so both validators agree |
| `SimpleValidator.ValidateStruct` | internal/util/simple_validator.go:38-57 | nil when valid or when there are no field errors, the error text alone for a non-field error, and otherwise one "field message" per error in order |
| `Accounts.ToResponseShowsExactlyPublic` | internal/model/user_dto.go:28-39 | two users have the same response exactly when their eight public fields agree, and the password, username, provider and provider id never show |
| `Accounts.FirstFailure` | internal/model/user_dto.go:5-10 | a field reports at most one error, none exactly when all its rules hold, otherwise the first failing rule |
| `Accounts.RegisterValid` | internal/model/user_dto.go:5-10 | a registration request is valid exactly when all four fields are present, the email is well formed and the password has at least 8 characters and is strong |
| `Accounts.FindEmail` | internal/repository/user_repo.go:57-67 | the lookup finds a user exactly when one with that email is stored |
| `Accounts.CreateKeepsValid` | internal/model/user.go:21-41 | inserting keeps ids as positions and emails and usernames unique |
| `Accounts.UpdateKeepsValid` | internal/repository/user_repo.go:69-71 | saving a stored user keeps the same invariant |
| `Accounts.FindEmailUnique` | internal/model/user.go:23 | with unique emails the lookup returns the one user with that email |
| `Accounts.UserRepo.Insert` | internal/repository/user_repo.go:41-43 | the store and the result are those of `Create`, and the invariant is kept |
| `Accounts.UserRepo.Save` | internal/repository/user_repo.go:69-71 | the store and the result are those of `Update`, and the invariant is kept |
| `AuthServices.RegisterRejectsDuplicate` | internal/service/auth_service.go:57-61 | registering a taken email fails with the duplicate error and changes nothing |
| `AuthServices.LookupErrorsWrapped` | internal/service/auth_service.go:52-56 | a failing lookup is wrapped with its context by both register and login |
| `AuthServices.RegisterAddsOneUser` | internal/service/auth_service.go:48-103 | a register that changes the store adds exactly one local user with the hashed password, no storage used of 15000, and answers with that user |
| `AuthServices.RegisterSuccessWrites` | internal/service/auth_service.go:48-103 | every successful register adds one row to the store |
| `AuthServices.LoginSameErrorForUnknownAndWrong` | internal/service/auth_service.go:105-122 | login reports invalid credentials exactly for an unknown email or a wrong password, with one error for both |
| `AuthServices.LoginSucceedsOnlyWithPassword` | internal/service/auth_service.go:105-146 | a successful login belongs to the stored user with that email whose password checks |
| `AuthServices.GetUserByTokenAccessOnly` | internal/service/auth_service.go:148-171 | succeeds exactly for a valid access token of a stored user, and returns that user |
| `AuthServices.RefreshUnauthorized` | internal/service/auth_service.go:174-213 | refresh answers unauthorized exactly for a valid token of the wrong type or of a missing user |
| `AuthServices.TokenTypesDisjoint` | internal/service/auth_service.go:155-158 | a token that authenticates cannot refresh, and one that refreshes cannot authenticate |
| `AuthServices.AuthService.Register` | internal/service/auth_service.go:48-103 | result and new store are those of `RegisterSpec`, and the store invariant is kept |
| `AuthServices.AuthService.Login` | internal/service/auth_service.go:105-146 | the result is `LoginSpec` on the current store |
| `AuthServices.AuthService.GetUserByToken` | internal/service/auth_service.go:148-171 | the result is `GetUserByTokenSpec` on the current store |
| `AuthServices.AuthService.RefreshTokens` | internal/service/auth_service.go:174-213 | the result is `RefreshTokensSpec` on the current store |
| `OAuthServices.GetProviderAccepts` | internal/service/oauth_service.go:190-198 | exactly the names whose lower case is "google" or "facebook" are accepted, and case never matters |
| `OAuthServices.ProviderSwitchAgrees` | internal/service/oauth_service.go:115-124 | after the provider was accepted, the switch picks the same provider and never its "local" default |
| `OAuthServices.UsernameShape` | internal/service/oauth_service.go:202-208 | the username is the text before the first '@' followed by one to four digits worth the clock's nanoseconds modulo 10000 |
| `OAuthServices.LoginEarlyFailures` | internal/service/oauth_service.go:87-104 | an unsupported provider or a missing email fails before the store is touched |
| `OAuthServices.LoginCreatesForNewEmail` | internal/service/oauth_service.go:126-147 | a new email gets one new user carrying the provider, its id, the generated username and the random password, with no storage used of 15000 |
| `OAuthServices.LoginLinksLocalAccount` | internal/service/oauth_service.go:148-158 | a local account with that email is switched to the provider and its id, and no other row changes |
| `OAuthServices.LoginSuccessWritesNewEmail` | internal/service/oauth_service.go:126-147 | every successful login for a new email adds one row |
| `OAuthServices.LoginSuccessWritesLocalAccount` | internal/service/oauth_service.go:148-158 | every successful login for the email of a local account leaves that row naming the provider, so the store changed |
| `OAuthServices.LoginLeavesOtherProvider` | internal/service/oauth_service.go:159-187 | an account of another provider is left unchanged and gets tokens |
| `OAuthServices.OAuthService.Login` | internal/service/oauth_service.go:86-187 | result and new store are those of `OAuthLoginSpec`, and the store invariant is kept |
| `AuthMiddleware.ParseBearerExactly` | internal/middleware/auth_middleware.go:23-41 | a header passes exactly when it is "Bearer " then a non-empty token without spaces, and the token is what follows |
| `AuthMiddleware.TokenRequiredOnlyForBarePrefix` | internal/middleware/auth_middleware.go:37-41 | "Token required" is the answer for the bare "Bearer " header and for nothing else |
| `AuthMiddleware.AuthenticateGate` | internal/middleware/auth_middleware.go:19-55 | every refusal is a 401 with one of the four messages; the request proceeds exactly when the header parses and the token resolves to a user |
| `AuthMiddleware.AuthenticatedIdIsSubject` | internal/middleware/auth_middleware.go:51-52 | downstream of the gate, reading the user id gives the token's subject, and the other context entries are unchanged |
| `AuthMiddleware.GetUserIdFromContextCases` | internal/middleware/auth_middleware.go:58-71 | reading the id succeeds exactly when a user is stored under the key, and yields that user's id |
| `Responses.JsonSuccessIsTwoHundreds` | internal/response/response.go:50-54 | the success flag is set exactly for statuses whose hundreds digit is 2 |
| `Responses.HelpersAgreeOnStatus` | internal/response/response.go:93-120 | every helper answers an unsuccessful error envelope without data, under its own code and the status that code stands for, carrying the given message, details and fields (the fixed messages for the internal and validation errors); bad request and validation share status 400 but not a code |
| `Responses.PagesCoverCount` | internal/response/response.go:124 | the page count is the fewest pages that hold all items: 0 for none, enough for all, and the last page not empty |
| `Config.GetEnvSetWins` | internal/config/config.go:92-97 | a set variable wins over any fallback, even when empty, and the fallback is used only when unset |
| `Config.LogLevelNames` | internal/config/config.go:109-124 | level names round-trip, and only an exact lower-case name selects a level other than Info |
| `Config.SelectingNamesAreLowerCase` | internal/config/config.go:109-124 | a level other than Info is selected only by a non-empty name of lower-case letters |
| `Config.UpperCaseLevelIsInfo` | internal/config/config.go:109-124 | every name that is empty or holds an upper-case letter falls to Info |
| `Config.PlainNumberFallsBack` | internal/config/config.go:100-106 | as written, any digit string other than "0" makes the setting fall back to its default |
| `Config.HoursSuffixAccepted` | internal/config/config.go:102-103 | as written, only a value with a unit is honoured: n followed by "h" gives n |
| `Config.GetEnvAsIntReadsNumbers` | internal/config/config.go:100-106 | as intended, a decimal number is taken as given and an unset or non-numeric variable gives the fallback |
| `Config.AccessExpiryFinding` | internal/config/config.go:76 | "48" for the access expiry is not a duration, so `Load` keeps 24 hours as written, while the intended reading gives 48 hours |
| `Config.LoadDefaults` | internal/config/config.go:58-89 | with none of its variables set, every setting has its documented default and the level is Info, as written and as intended alike |
| `Config.LoadExpiries` | internal/config/config.go:76-77 | as written, "<a>h" gives access tokens of `a` hours and "<r>h" refresh tokens of `r` days |
| `Config.LoadIgnoresPlainExpiries` | internal/config/config.go:76-77 | as written, expiries given as plain numbers other than "0" leave the 24-hour and 7-day defaults in place |
| `Config.LoadIntendedExpiries` | internal/config/config.go:76-77 | as intended, plain numbers `a` and `r` give access tokens of `a` hours and refresh tokens of `r` days |
| `AppErrors.ErrorTextParsesBack` | internal/util/error.go:13-24 | the text is "code: message" whatever the details, and code and message read back from it when the code has no ':' |
| `AppErrors.ErrorTextInjective` | internal/util/error.go:13-15 | errors with colon-free codes and the same text have the same code and message |
| `Text.Split` | internal/middleware/auth_middleware.go:30 | the parts join back to the input and contain no separator |
| `Text.IntDecimal` | internal/service/oauth_service.go:206 | `%d` of a number reads back as that number, with a leading '-' when negative |
| `Text.LowerChar` | internal/service/oauth_service.go:192 | ASCII upper case and the two non-ASCII letters whose lower case is ASCII are lowered; every other character is kept |
| `GoInt.Quot` | internal/response/response.go:124 | Go's division truncates toward zero: the sign follows the operands, the quotient's magnitude times that of `b` is at most that of `a` and falls short of it by less than that of `b`, and for `a >= 0`, `b > 0` it is the floor quotient |
| `GoInt.Rem` | internal/service/oauth_service.go:206 | the remainder completes Go's quotient (`a == q*b + r`), is never of the sign opposite to `a`, and has a magnitude below that of `b` |

## Left out

- Logging, the HTTP writes and JSON encoding, the handlers and routes, request decoding (`ValidateRequest*`), the server's start-up and shutdown, and concurrent runs of `Migrate`.
- gorm and PostgreSQL: `AutoMigrate`, `DropTable`, SQL and real transactions. They are modelled as a table set, a record sequence and a snapshot that only a commit writes back. A failed commit is modelled as leaving the store unchanged.
- `applied_at` wall-clock time: a monotonic stamp replaces it, so rollback order is never a tie.
- Migration.Migrator.Rollback: `n` is a natural number; gorm's treatment of a negative limit (no limit) is not modelled.
- The network calls of the OAuth providers, JWT issue and validation, bcrypt, `uuid.NewString` and `time.Now`: they are parameters of the model.
- User storage sizes are Go `float64` values; the model uses integers.
- Go's fixed-width integers: `uint` ids, the `int` page arithmetic and `time.Duration` are unbounded here, so int64 overflow is not modelled.
- Validation.KindOf: classifies ASCII only. Go's `unicode.IsUpper`, `IsLower`, `IsNumber`, `IsPunct` and `IsSymbol` also accept non-ASCII letters, digits and symbols, which the model treats as matching none of the four classes.
- Text.LowerChar: beyond ASCII, it lowers only the two characters whose lower case is ASCII. Go lowers other non-ASCII letters to non-ASCII letters, which cannot change whether a name equals "google" or "facebook".
- The IPv6 branch of `isIPAddress` and the `custom_url` regular expression are not modelled. `Validation.IsIPv4` models the IPv4 alternative only, so an IPv6 address that Go accepts is not accepted here.
- The reflection-driven validation engine (`validate.Struct` and the tag-name function): a `Check` value stands for its result. The email rule is a parameter of `Accounts.RegisterErrors`.
- Config.ParseDuration: it covers signs, "0" and number-unit groups with Go's units. Fractions such as "1.5h" (which Go accepts) and overflow are not modelled. The hour count `int(d.Hours())` is taken as the exact truncated quotient, leaving aside `float64` rounding.
- Reading the optional `.env` file into the environment is not modelled.
- `Config.Load` follows `getEnvAsInt` as written. `Config.LoadIntended` is the same loader with the decimal reading of the Findings table; it stands beside `Load` and replaces it nowhere.
- Responses.WithPagination: requires a non-zero page size. With zero, Go panics on the division.
- AuthMiddleware.GetUserIdFromContextCases: a nil `*model.User` stored under the key is not modelled. Go would panic reading its id, and the gate never stores one.
- Accounts.Create: user ids are consecutive row positions, so the new user always gets `|rows| + 1`. The `id` primary key (`internal/model/user.go:22`) is a PostgreSQL serial column, which uses up its value even when an insert then fails on a unique email or username. Real ids can therefore have gaps, and after a failed insert the next user, with the id returned in its `AuthResponse` and used as its token subject, gets a larger id than the model gives it. `Accounts.RepoValid` and the services' lemmas rely on ids being positions.
- The registration flow leaves the username empty. Because usernames are unique in the store, a second local registration fails at insert with a write error. The model keeps this behaviour rather than correcting it.

## Findings

| source | as written | input that shows it | evidently intended | confidence | as-written member | corrected member |
|---|---|---|---|---|---|---|
| internal/config/config.go:100-106 | `getEnvAsInt` parses the variable with `time.ParseDuration` and returns its whole hours. A plain number has no unit, so it is an error and the fallback is used. A value with a unit is read as hours, and for the refresh setting those hours are then multiplied into days. | `JWT_ACCESS_EXPIRES_IN=48` yields the default 24 hours, not 48; `JWT_REFRESH_EXPIRES_IN=168h` yields 168 days | read the variable as a decimal integer (hours for access, days for refresh), falling back when unset or not a number | high, not executed | `Config.LoadIgnoresPlainExpiries` | `Config.LoadIntendedExpiries` |
