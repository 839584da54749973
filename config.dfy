/** internal/config/config.go: the configuration read from the process
    environment, with a default for every variable. The environment is a
    map from variable name to value (a variable set to "" is present);
    reading the optional `.env` file into it is not modelled. */
module Config {
  import opened Wrappers
  import opened Text
  import opened GoInt

  /** `zapcore.Level`, as far as the configuration can select it. */
  datatype LogLevel = Debug | Info | Warn | Error | Fatal

  datatype ServerConfig = ServerConfig(address: string)
  datatype DatabaseConfig = DatabaseConfig(host: string, port: string, user: string, password: string,
                                           name: string, sslMode: string)
  /** Expiry times are `time.Duration` values, in nanoseconds. */
  datatype JwtConfig = JwtConfig(secret: string, accessExpiresIn: int, refreshExpiresIn: int)
  datatype OAuthConfig = OAuthConfig(googleClientId: string, googleClientSecret: string,
                                     facebookAppId: string, facebookAppSecret: string)
  datatype AppConfig = AppConfig(server: ServerConfig, database: DatabaseConfig, jwt: JwtConfig,
                                 oauth: OAuthConfig, logLevel: LogLevel)

  type Env = map<string, string>

  const Nanosecond := 1
  const Microsecond := 1000
  const Millisecond := 1000000
  const Second := 1000000000
  const Minute := 60 * Second
  const Hour := 60 * Minute

  /** `getEnv`: the value whenever the variable is set, even to "". */
  function GetEnv(env: Env, key: string, fallback: string): string {
    if key in env then env[key] else fallback
  }

  /** `getLogLevel`: the five lower-case names; anything else is Info. */
  function GetLogLevel(level: string): LogLevel {
    if level == "debug" then Debug
    else if level == "info" then Info
    else if level == "warn" then Warn
    else if level == "error" then Error
    else if level == "fatal" then Fatal
    else Info
  }

  /** The name each level is configured by. */
  function LevelName(l: LogLevel): string {
    match l
    case Debug => "debug"
    case Info => "info"
    case Warn => "warn"
    case Error => "error"
    case Fatal => "fatal"
  }

  // ---------------------------------------------------------------------
  // time.ParseDuration, without fractions and without int64 overflow
  // ---------------------------------------------------------------------

  /** Length of the leading run of decimal digits. */
  function DigitRun(s: string): (k: nat)
    ensures k <= |s| && AllDigits(s[..k])
    ensures k < |s| ==> !IsDigit(s[k])
  {
    if s == [] || !IsDigit(s[0]) then 0
    else
      var k := 1 + DigitRun(s[1..]);
      assert s[..k] == [s[0]] + s[1..][..k - 1];
      k
  }

  /** Length of the leading unit name: the run up to the next '.' or digit. */
  function UnitRun(s: string): (k: nat)
    ensures k <= |s|
    ensures forall i :: 0 <= i < k ==> s[i] != '.' && !IsDigit(s[i])
    ensures k < |s| ==> s[k] == '.' || IsDigit(s[k])
  {
    if s == [] || s[0] == '.' || IsDigit(s[0]) then 0 else 1 + UnitRun(s[1..])
  }

  /** The units `time.ParseDuration` knows, in nanoseconds. */
  function UnitNanos(u: string): Option<int> {
    if u == "ns" then Some(Nanosecond)
    else if u == "us" || u == "\U{00B5}s" || u == "\U{03BC}s" then Some(Microsecond)
    else if u == "ms" then Some(Millisecond)
    else if u == "s" then Some(Second)
    else if u == "m" then Some(Minute)
    else if u == "h" then Some(Hour)
    else None
  }

  /** A non-empty sequence of number-unit groups, summed. */
  function Groups(s: string): Option<int>
    requires s != ""
    decreases |s|
  {
    var k := DigitRun(s);
    if k == 0 then None
    else
      var rest := s[k..];
      var i := UnitRun(rest);
      if i == 0 then None
      else
        match UnitNanos(rest[..i])
        case None => None
        case Some(unit) =>
          var v := Value(s[..k]) * unit;
          if i == |rest| then Some(v)
          else match Groups(rest[i..])
            case None => None
            case Some(w) => Some(v + w)
  }

  /** `time.ParseDuration`: an optional sign, then "0" or number-unit
      groups; an empty string, a number without its unit and an unknown
      unit are errors. */
  function ParseDuration(s: string): Option<int> {
    var signed := s != "" && (s[0] == '-' || s[0] == '+');
    var t := if signed then s[1..] else s;
    if t == "0" then Some(0)
    else if t == "" then None
    else match Groups(t)
      case None => None
      case Some(d) => Some(if signed && s[0] == '-' then -d else d)
  }

  // ---------------------------------------------------------------------
  // getEnvAsInt, as written and as intended
  // ---------------------------------------------------------------------

  /** `getEnvAsInt` as written: the variable is read as a Go duration and
      its whole hours are returned (`int(d.Hours())` truncates toward zero);
      an unset variable or any parse error gives the fallback. */
  function GetEnvAsIntAsWritten(env: Env, key: string, fallback: int): int {
    match ParseDuration(GetEnv(env, key, ""))
    case None => fallback
    case Some(d) => Quot(d, Hour)
  }

  /** `getEnvAsInt` as its name and its callers intend: the variable is read
      as a decimal number, and the fallback is used when it is unset or not
      a number. */
  function GetEnvAsInt(env: Env, key: string, fallback: int): int {
    var s := GetEnv(env, key, "");
    if s != "" && AllDigits(s) then Value(s) else fallback
  }

  /** The settings `Load` reads, each from its variable or its default,
      given the access expiry in hours and the refresh expiry in days. */
  function Assemble(env: Env, accessHours: int, refreshDays: int): AppConfig {
    AppConfig(
      ServerConfig(GetEnv(env, "SERVER_ADDRESS", ":8080")),
      DatabaseConfig(GetEnv(env, "DB_HOST", "localhost"), GetEnv(env, "DB_PORT", "5432"),
                     GetEnv(env, "DB_USER", "postgres"), GetEnv(env, "DB_PASSWORD", "postgres"),
                     GetEnv(env, "DB_NAME", "myapp"), GetEnv(env, "DB_SSLMODE", "disable")),
      JwtConfig(GetEnv(env, "JWT_SECRET", "your-secret-key"), accessHours * Hour, refreshDays * 24 * Hour),
      OAuthConfig(GetEnv(env, "GOOGLE_CLIENT_ID", ""), GetEnv(env, "GOOGLE_CLIENT_SECRET", ""),
                  GetEnv(env, "FACEBOOK_APP_ID", ""), GetEnv(env, "FACEBOOK_APP_SECRET", "")),
      GetLogLevel(GetEnv(env, "LOG_LEVEL", "info")))
  }

  /** Every variable `Load` reads. */
  const LoadKeys: set<string> := {
    "SERVER_ADDRESS", "DB_HOST", "DB_PORT", "DB_USER", "DB_PASSWORD", "DB_NAME", "DB_SSLMODE",
    "JWT_SECRET", "JWT_ACCESS_EXPIRES_IN", "JWT_REFRESH_EXPIRES_IN",
    "GOOGLE_CLIENT_ID", "GOOGLE_CLIENT_SECRET", "FACEBOOK_APP_ID", "FACEBOOK_APP_SECRET", "LOG_LEVEL"
  }

  /** `Load` as written: both expiries go through `getEnvAsInt` as written,
      the access token lasting that many hours and the refresh token that
      many days. It never fails. */
  function Load(env: Env): AppConfig {
    Assemble(env, GetEnvAsIntAsWritten(env, "JWT_ACCESS_EXPIRES_IN", 24),
             GetEnvAsIntAsWritten(env, "JWT_REFRESH_EXPIRES_IN", 7))
  }

  /** `Load` as intended: the expiries read as decimal numbers. */
  function LoadIntended(env: Env): AppConfig {
    Assemble(env, GetEnvAsInt(env, "JWT_ACCESS_EXPIRES_IN", 24), GetEnvAsInt(env, "JWT_REFRESH_EXPIRES_IN", 7))
  }

  // ---------------------------------------------------------------------
  // Properties
  // ---------------------------------------------------------------------

  /** A set variable wins over any fallback, even when it is empty; the
      fallback is used only for an unset variable. */
  lemma GetEnvSetWins(env: Env, key: string, fallback: string, other: string)
    ensures key in env ==> GetEnv(env, key, fallback) == GetEnv(env, key, other) == env[key]
    ensures key !in env ==> GetEnv(env, key, fallback) == fallback
  {
  }

  /** The level names round-trip, and only an exact lower-case name selects
      a level other than Info. */
  lemma LogLevelNames(level: string, l: LogLevel)
    ensures GetLogLevel(LevelName(l)) == l
    ensures GetLogLevel(level) != Info ==> level == LevelName(GetLogLevel(level))
  {
  }

  /** A level other than Info is selected only by a non-empty name made of
      lower-case letters. */
  lemma SelectingNamesAreLowerCase(level: string)
    ensures GetLogLevel(level) != Info ==> level != "" && forall i :: 0 <= i < |level| ==> 'a' <= level[i] <= 'z'
  {
    if GetLogLevel(level) != Info {
      assert level in {"debug", "warn", "error", "fatal"};
    }
  }

  /** An empty name, or one with any upper-case letter, selects Info. */
  lemma UpperCaseLevelIsInfo(level: string)
    ensures (level == "" || exists i :: 0 <= i < |level| && 'A' <= level[i] <= 'Z') ==> GetLogLevel(level) == Info
  {
    SelectingNamesAreLowerCase(level);
  }

  lemma {:induction false} DigitRunAll(s: string)
    requires AllDigits(s)
    ensures DigitRun(s) == |s|
  {
    if s != [] {
      DigitRunAll(s[1..]);
    }
  }

  lemma {:induction false} DigitRunThenUnit(a: string, b: string)
    requires AllDigits(a) && b != [] && !IsDigit(b[0])
    ensures DigitRun(a + b) == |a|
  {
    if a != [] {
      assert (a + b)[1..] == a[1..] + b;
      DigitRunThenUnit(a[1..], b);
    }
  }

  /** As written, a plain number of hours is not a duration: any digit
      string other than "0" makes the setting fall back to its default. */
  lemma PlainNumberFallsBack(env: Env, key: string, fallback: int)
    requires key in env && env[key] != "" && env[key] != "0" && AllDigits(env[key])
    ensures GetEnvAsIntAsWritten(env, key, fallback) == fallback
  {
    var s := env[key];
    assert IsDigit(s[0]);
    DigitRunAll(s);
    assert s[|s|..] == "";
  }

  lemma HoursGroup(n: nat)
    ensures Groups(Decimal(n) + "h") == Some(n * Hour)
  {
    var d := Decimal(n);
    var s := d + "h";
    DigitRunThenUnit(d, "h");
    assert s[..|d|] == d;
    var rest := s[|d|..];
    assert rest == "h";
    assert UnitRun(rest) == 1;
    assert rest[..1] == "h";
    assert UnitNanos("h") == Some(Hour);
    ValueOfDecimal(n);
    assert Value(s[..|d|]) == n;
  }

  lemma WholeHours(n: nat)
    ensures Quot(n * Hour, Hour) == n
  {
    var q := Quot(n * Hour, Hour);
    assert q * Hour <= n * Hour < q * Hour + Hour;
    assert (q - n) * Hour <= 0 < (q - n + 1) * Hour;
  }

  /** As written, only a value with a unit is honoured: `n` followed by
      "h" gives `n`. */
  lemma HoursSuffixAccepted(env: Env, key: string, fallback: int, n: nat)
    requires key in env && env[key] == Decimal(n) + "h"
    ensures ParseDuration(env[key]) == Some(n * Hour)
    ensures GetEnvAsIntAsWritten(env, key, fallback) == n
  {
    var s := env[key];
    assert s[0] == Decimal(n)[0] && IsDigit(s[0]);
    assert s != "0";
    HoursGroup(n);
    WholeHours(n);
  }

  /** The evidently intended reading: a decimal number is taken as given,
      and an unset or non-numeric variable gives the fallback. */
  lemma GetEnvAsIntReadsNumbers(env: Env, key: string, fallback: int, n: nat)
    ensures GetEnvAsInt(env[key := Decimal(n)], key, fallback) == n
    ensures key !in env ==> GetEnvAsInt(env, key, fallback) == fallback
    ensures key in env && !AllDigits(env[key]) ==> GetEnvAsInt(env, key, fallback) == fallback
  {
    ValueOfDecimal(n);
  }

  /** The example behind the finding: `JWT_ACCESS_EXPIRES_IN=48` keeps the
      default of 24 hours as written, and gives 48 hours as intended. */
  lemma AccessExpiryFinding()
    ensures GetEnvAsIntAsWritten(map["JWT_ACCESS_EXPIRES_IN" := "48"], "JWT_ACCESS_EXPIRES_IN", 24) == 24
    ensures Load(map["JWT_ACCESS_EXPIRES_IN" := "48"]).jwt.accessExpiresIn == 24 * Hour
    ensures LoadIntended(map["JWT_ACCESS_EXPIRES_IN" := "48"]).jwt.accessExpiresIn == 48 * Hour
  {
    var env := map["JWT_ACCESS_EXPIRES_IN" := "48"];
    PlainNumberFallsBack(env, "JWT_ACCESS_EXPIRES_IN", 24);
    GetEnvAsIntReadsNumbers(map[], "JWT_ACCESS_EXPIRES_IN", 24, 48);
    assert Decimal(48) == "48";
    assert map[]["JWT_ACCESS_EXPIRES_IN" := Decimal(48)] == env;
  }

  /** With none of its variables set, `Load`, as written and as intended,
      yields the documented defaults: ":8080", localhost:5432 without TLS,
      24-hour access and 7-day refresh tokens, level Info. */
  lemma LoadDefaults(env: Env)
    requires env.Keys !! LoadKeys
    ensures var c := Load(env);
            && c.server.address == ":8080"
            && c.database == DatabaseConfig("localhost", "5432", "postgres", "postgres", "myapp", "disable")
            && c.jwt == JwtConfig("your-secret-key", 24 * Hour, 7 * 24 * Hour)
            && c.oauth == OAuthConfig("", "", "", "")
            && c.logLevel == Info
    ensures LoadIntended(env) == Load(env)
  {
  }

  /** As written, expiries given with the hour unit are honoured: "<a>h"
      gives `a` hours for access tokens and "<r>h" gives `r` days for
      refresh tokens. */
  lemma LoadExpiries(env: Env, a: nat, r: nat)
    requires "JWT_ACCESS_EXPIRES_IN" in env && env["JWT_ACCESS_EXPIRES_IN"] == Decimal(a) + "h"
    requires "JWT_REFRESH_EXPIRES_IN" in env && env["JWT_REFRESH_EXPIRES_IN"] == Decimal(r) + "h"
    ensures Load(env).jwt.accessExpiresIn == a * Hour
    ensures Load(env).jwt.refreshExpiresIn == r * 24 * Hour
  {
    HoursSuffixAccepted(env, "JWT_ACCESS_EXPIRES_IN", 24, a);
    HoursSuffixAccepted(env, "JWT_REFRESH_EXPIRES_IN", 7, r);
  }

  /** As written, expiries given as plain numbers (other than "0") are
      ignored: the tokens keep their 24-hour and 7-day defaults. */
  lemma LoadIgnoresPlainExpiries(env: Env)
    requires "JWT_ACCESS_EXPIRES_IN" in env && "JWT_REFRESH_EXPIRES_IN" in env
    requires var s := env["JWT_ACCESS_EXPIRES_IN"]; s != "" && s != "0" && AllDigits(s)
    requires var s := env["JWT_REFRESH_EXPIRES_IN"]; s != "" && s != "0" && AllDigits(s)
    ensures Load(env).jwt.accessExpiresIn == 24 * Hour
    ensures Load(env).jwt.refreshExpiresIn == 7 * 24 * Hour
  {
    PlainNumberFallsBack(env, "JWT_ACCESS_EXPIRES_IN", 24);
    PlainNumberFallsBack(env, "JWT_REFRESH_EXPIRES_IN", 7);
  }

  /** As intended, configured expiries are plain numbers: `a` hours for
      access tokens, `r` days for refresh tokens. */
  lemma LoadIntendedExpiries(env: Env, a: nat, r: nat)
    requires "JWT_ACCESS_EXPIRES_IN" in env && env["JWT_ACCESS_EXPIRES_IN"] == Decimal(a)
    requires "JWT_REFRESH_EXPIRES_IN" in env && env["JWT_REFRESH_EXPIRES_IN"] == Decimal(r)
    ensures LoadIntended(env).jwt.accessExpiresIn == a * Hour
    ensures LoadIntended(env).jwt.refreshExpiresIn == r * 24 * Hour
  {
    ValueOfDecimal(a);
    ValueOfDecimal(r);
  }
}
