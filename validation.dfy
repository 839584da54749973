/** The validation rules shared by internal/util/validator.go and
    internal/util/simple_validator.go: the character classes of the
    strong-password rule, the date, time and IPv4 recognisers, the message
    of each validation tag, and the per-field error map. Both files spell
    these out identically; the two `strongPassword` loops, which differ,
    are in modules Validator and SimpleValidator. */
module Validation {
  import opened Wrappers
  import opened Text

  // ---------------------------------------------------------------------
  // Character classes (Go's unicode package, on ASCII)
  // ---------------------------------------------------------------------

  /** Which arm of `strongPassword`'s switch a character takes. */
  datatype CharKind = Upper | Lower | Number | Special | Plain

  /** `unicode.IsPunct(c) || unicode.IsSymbol(c)` on ASCII: every printable
      character that is neither a letter, a digit nor the space. */
  predicate IsPunctOrSymbol(c: char) {
    ('!' <= c <= '/') || (':' <= c <= '@') || ('[' <= c <= '`') || ('{' <= c <= '~')
  }

  /** The switch: upper, else lower, else number, else punctuation/symbol. */
  function KindOf(c: char): (k: CharKind)
    ensures k == Upper <==> 'A' <= c <= 'Z'
    ensures k == Lower <==> 'a' <= c <= 'z'
    ensures k == Number <==> IsDigit(c)
    ensures k == Special <==> IsPunctOrSymbol(c)
  {
    if 'A' <= c <= 'Z' then Upper
    else if 'a' <= c <= 'z' then Lower
    else if '0' <= c <= '9' then Number
    else if IsPunctOrSymbol(c) then Special
    else Plain
  }

  predicate HasKind(p: string, k: CharKind) {
    exists i :: 0 <= i < |p| && KindOf(p[i]) == k
  }

  /** The strong-password rule: at least one character of each of the four
      classes. */
  predicate IsStrong(p: string) {
    HasKind(p, Upper) && HasKind(p, Lower) && HasKind(p, Number) && HasKind(p, Special)
  }

  /** Each class needs its own character, so a strong password has at least
      four; in particular the empty password is never strong. */
  lemma StrongNeedsFour(p: string)
    requires IsStrong(p)
    ensures |p| >= 4
  {
    var i :| 0 <= i < |p| && KindOf(p[i]) == Upper;
    var j :| 0 <= j < |p| && KindOf(p[j]) == Lower;
    var k :| 0 <= k < |p| && KindOf(p[k]) == Number;
    var l :| 0 <= l < |p| && KindOf(p[l]) == Special;
    assert i != j && i != k && i != l && j != k && j != l && k != l;
  }

  // ---------------------------------------------------------------------
  // isDate: ^\d{4}-\d{2}-\d{2}$
  // ---------------------------------------------------------------------

  /** `isDate`: four digits, '-', two digits, '-', two digits (`\d` is ASCII
      in Go's regexp). No calendar check. */
  predicate IsDate(s: string) {
    |s| == 10 && AllDigits(s[0..4]) && s[4] == '-' && AllDigits(s[5..7]) && s[7] == '-' && AllDigits(s[8..10])
  }

  /** `n` written with exactly `w` digits, zero-padded on the left. */
  function Padded(n: nat, w: nat): (s: string)
    ensures |s| == w && AllDigits(s)
  {
    if w == 0 then [] else Padded(n / 10, w - 1) + [DigitChar(n % 10)]
  }

  function Pow10(w: nat): (p: nat)
    ensures p >= 1
  {
    if w == 0 then 1 else 10 * Pow10(w - 1)
  }

  lemma {:induction false} PaddedValue(n: nat, w: nat)
    requires n < Pow10(w)
    ensures Value(Padded(n, w)) == n
  {
    if w > 0 {
      var s := Padded(n, w);
      assert s[..|s| - 1] == Padded(n / 10, w - 1);
      assert 10 * (n / 10) <= n;
      PaddedValue(n / 10, w - 1);
    }
  }

  lemma {:induction false} PaddedOfValue(s: string)
    requires AllDigits(s)
    ensures Padded(Value(s), |s|) == s
  {
    if |s| > 0 {
      var init := s[..|s| - 1];
      PaddedOfValue(init);
      assert Value(s) / 10 == Value(init);
      assert Value(s) % 10 == DigitValue(s[|s| - 1]);
      assert s == init + [s[|s| - 1]];
    }
  }

  function FormatDate(y: nat, m: nat, d: nat): string {
    Padded(y, 4) + "-" + Padded(m, 2) + "-" + Padded(d, 2)
  }

  /** The accepted strings are exactly the zero-padded renderings of a
      year below 10000 and a month and day below 100, in range or not. */
  lemma DateRoundTrip(y: nat, m: nat, d: nat)
    requires y < 10000 && m < 100 && d < 100
    ensures IsDate(FormatDate(y, m, d))
    ensures var s := FormatDate(y, m, d);
            Value(s[0..4]) == y && Value(s[5..7]) == m && Value(s[8..10]) == d
  {
    var s := FormatDate(y, m, d);
    assert s[0..4] == Padded(y, 4);
    assert s[5..7] == Padded(m, 2);
    assert s[8..10] == Padded(d, 2);
    PaddedValue(y, 4);
    PaddedValue(m, 2);
    PaddedValue(d, 2);
  }

  lemma DateParsed(s: string)
    requires IsDate(s)
    ensures s == FormatDate(Value(s[0..4]), Value(s[5..7]), Value(s[8..10]))
  {
    PaddedOfValue(s[0..4]);
    PaddedOfValue(s[5..7]);
    PaddedOfValue(s[8..10]);
    assert s == s[0..4] + "-" + s[5..7] + "-" + s[8..10];
  }

  // ---------------------------------------------------------------------
  // isTime: ^([01]\d|2[0-3]):([0-5]\d):([0-5]\d)$
  // ---------------------------------------------------------------------

  predicate HourField(h: string) {
    |h| == 2 && ((('0' <= h[0] <= '1') && IsDigit(h[1])) || (h[0] == '2' && '0' <= h[1] <= '3'))
  }

  predicate SixtyField(f: string) {
    |f| == 2 && '0' <= f[0] <= '5' && IsDigit(f[1])
  }

  /** `isTime`, alternative by alternative as the pattern reads. */
  predicate IsTime(s: string) {
    |s| == 8 && HourField(s[0..2]) && s[2] == ':' && SixtyField(s[3..5]) && s[5] == ':' && SixtyField(s[6..8])
  }

  /** The pattern accepts exactly HH:MM:SS with digits in each field, hour
      below 24 and minute and second below 60. */
  lemma TimeRange(s: string)
    ensures IsTime(s) <==>
      |s| == 8 && s[2] == ':' && s[5] == ':' &&
      AllDigits(s[0..2]) && AllDigits(s[3..5]) && AllDigits(s[6..8]) &&
      Value(s[0..2]) < 24 && Value(s[3..5]) < 60 && Value(s[6..8]) < 60
  {
    if |s| == 8 {
      TwoDigits(s[0..2]);
      TwoDigits(s[3..5]);
      TwoDigits(s[6..8]);
    }
  }

  lemma TwoDigits(f: string)
    requires |f| == 2
    ensures AllDigits(f) ==> Value(f) == 10 * DigitValue(f[0]) + DigitValue(f[1])
  {
    if AllDigits(f) {
      assert f[..1][..0] == [];
      assert Value(f) == Value(f[..1]) * 10 + DigitValue(f[1]);
      assert Value(f[..1]) == Value(f[..1][..0]) * 10 + DigitValue(f[0]);
    }
  }

  // ---------------------------------------------------------------------
  // The IPv4 branch of isIPAddress
  // ---------------------------------------------------------------------

  /** One octet of the pattern: `[0-9]|[1-9][0-9]|1[0-9]{2}|2[0-4][0-9]|25[0-5]`. */
  predicate OctetAlt(o: string) {
    || (|o| == 1 && IsDigit(o[0]))
    || (|o| == 2 && '1' <= o[0] <= '9' && IsDigit(o[1]))
    || (|o| == 3 && o[0] == '1' && IsDigit(o[1]) && IsDigit(o[2]))
    || (|o| == 3 && o[0] == '2' && '0' <= o[1] <= '4' && IsDigit(o[2]))
    || (|o| == 3 && o[0] == '2' && o[1] == '5' && '0' <= o[2] <= '5')
  }

  /** `((octet)\.){3}(octet)`: octets contain no dot, so this is four
      dot-separated octets. */
  predicate IsIPv4(s: string) {
    var parts := Split(s, '.');
    |parts| == 4 && forall i :: 0 <= i < 4 ==> OctetAlt(parts[i])
  }

  lemma ThreeDigits(o: string)
    requires |o| == 3 && AllDigits(o)
    ensures Value(o) == 100 * DigitValue(o[0]) + 10 * DigitValue(o[1]) + DigitValue(o[2])
  {
    TwoDigits(o[..2]);
    assert o[..2] == [o[0], o[1]];
  }

  /** The alternation accepts exactly the canonical decimals 0 to 255. */
  lemma OctetCanonical(o: string)
    ensures OctetAlt(o) <==> IsCanonical(o) && Value(o) <= 255
  {
    if |o| == 1 {
      assert o[..0] == [];
    } else if |o| == 2 {
      TwoDigits(o);
    } else if |o| == 3 {
      if AllDigits(o) {
        ThreeDigits(o);
      }
    } else if IsCanonical(o) && |o| > 3 {
      CanonicalLarge(o);
    }
  }

  lemma {:induction false} CanonicalLarge(o: string)
    requires IsCanonical(o) && |o| >= 4
    ensures Value(o) >= 1000
  {
    var init := o[..|o| - 1];
    if |init| == 3 {
      ThreeDigits(init);
    } else {
      CanonicalLarge(init);
    }
  }

  function Dotted(a: nat, b: nat, c: nat, d: nat): string {
    Join([Decimal(a), Decimal(b), Decimal(c), Decimal(d)], '.')
  }

  /** Every address written as four decimals from 0 to 255 is accepted and
      splits back into those four numbers. */
  lemma DottedAccepted(a: nat, b: nat, c: nat, d: nat)
    requires a <= 255 && b <= 255 && c <= 255 && d <= 255
    ensures IsIPv4(Dotted(a, b, c, d))
    ensures var p := Split(Dotted(a, b, c, d), '.');
            Value(p[0]) == a && Value(p[1]) == b && Value(p[2]) == c && Value(p[3]) == d
  {
    var parts := [Decimal(a), Decimal(b), Decimal(c), Decimal(d)];
    DecimalOctet(a);
    DecimalOctet(b);
    DecimalOctet(c);
    DecimalOctet(d);
    SplitJoin(parts, '.');
    assert Split(Dotted(a, b, c, d), '.') == parts;
  }

  /** A number from 0 to 255 written in decimal is an octet that reads back
      as the number. */
  lemma DecimalOctet(x: nat)
    requires x <= 255
    ensures OctetAlt(Decimal(x)) && Value(Decimal(x)) == x && '.' !in Decimal(x)
  {
    ValueOfDecimal(x);
    OctetCanonical(Decimal(x));
    assert AllDigits(Decimal(x));
  }

  /** And every accepted string is such an address. */
  lemma AcceptedIsDotted(s: string)
    requires IsIPv4(s)
    ensures var p := Split(s, '.');
            s == Dotted(Value(p[0]), Value(p[1]), Value(p[2]), Value(p[3])) &&
            Value(p[0]) <= 255 && Value(p[1]) <= 255 && Value(p[2]) <= 255 && Value(p[3]) <= 255
  {
    var p := Split(s, '.');
    forall i | 0 <= i < 4 ensures IsCanonical(p[i]) && Value(p[i]) <= 255 {
      OctetCanonical(p[i]);
    }
    DecimalOfValue(p[0]);
    DecimalOfValue(p[1]);
    DecimalOfValue(p[2]);
    DecimalOfValue(p[3]);
    assert p == [p[0], p[1], p[2], p[3]];
  }

  // ---------------------------------------------------------------------
  // formatValidationErrorMessage
  // ---------------------------------------------------------------------

  const MinPrefix := "must be at least "
  const MaxPrefix := "must be at most "
  const LengthSuffix := " characters long"
  const UnknownPrefix := "failed validation: "

  /** The message for a failed tag; only "min" and "max" use the param. */
  function FormatMessage(tag: string, param: string): string {
    match tag
    case "required" => "is required"
    case "email" => "must be a valid email address"
    case "min" => MinPrefix + param + LengthSuffix
    case "max" => MaxPrefix + param + LengthSuffix
    case "strong_password" => "must contain at least 1 uppercase, 1 lowercase, 1 number, and 1 special character"
    case "custom_url" => "must be a valid URL"
    case "date" => "must be a valid date in format YYYY-MM-DD"
    case "time" => "must be a valid time in format HH:MM:SS"
    case "ip_address" => "must be a valid IP address"
    case _ => UnknownPrefix + tag
  }

  predicate IsKnownTag(tag: string) {
    tag in ["required", "email", "min", "max", "strong_password", "custom_url", "date", "time", "ip_address"]
  }

  /** The param is recoverable from a "min" or "max" message, and the tag
      from the message of an unknown tag; other messages ignore the param. */
  lemma MessageCarries(tag: string, param: string)
    ensures var msg := FormatMessage(tag, param);
      && (tag == "min" ==> msg[|MinPrefix|..|msg| - |LengthSuffix|] == param)
      && (tag == "max" ==> msg[|MaxPrefix|..|msg| - |LengthSuffix|] == param)
      && (!IsKnownTag(tag) ==> msg[..|UnknownPrefix|] == UnknownPrefix && msg[|UnknownPrefix|..] == tag)
      && (tag != "min" && tag != "max" ==> forall q :: FormatMessage(tag, q) == msg)
  {
    var msg := FormatMessage(tag, param);
    if tag == "min" {
      assert msg == MinPrefix + param + LengthSuffix;
      assert msg[|MinPrefix|..|msg| - |LengthSuffix|] == param;
    } else if tag == "max" {
      assert msg == MaxPrefix + param + LengthSuffix;
      assert msg[|MaxPrefix|..|msg| - |LengthSuffix|] == param;
    }
  }

  // ---------------------------------------------------------------------
  // The outcome of validate.Struct and the per-field map
  // ---------------------------------------------------------------------

  /** One `validator.FieldError`: the field's json name, the failed tag and
      the tag's parameter. */
  datatype FieldError = FieldError(field: string, tag: string, param: string)

  /** What `validate.Struct` returned: nil, `ValidationErrors` in the
      library's order, or another error with its text. */
  datatype Check = Passed | Invalid(errs: seq<FieldError>) | Broken(message: string)

  /** `field + " " + message`, the text both files store or list per error. */
  function FieldMessage(e: FieldError): string {
    e.field + " " + FormatMessage(e.tag, e.param)
  }

  /** A field name without a space can be read back from its message. */
  lemma FieldMessageField(e: FieldError)
    requires ' ' !in e.field
    ensures Before(FieldMessage(e), ' ') == e.field
  {
    var msg := FieldMessage(e);
    var r := Before(msg, ' ');
    assert msg == e.field + [' '] + FormatMessage(e.tag, e.param);
    assert msg[|e.field|] == ' ';
    assert msg[..|e.field|] == e.field;
    assert msg[|e.field|] == ' ';
  }

  /** The (field, message) pairs of the errors, in the library's order. */
  function Entries(errs: seq<FieldError>): (r: seq<(string, string)>)
    ensures |r| == |errs|
    ensures forall i :: 0 <= i < |errs| ==> r[i] == (errs[i].field, FieldMessage(errs[i]))
  {
    if errs == [] then [] else [(errs[0].field, FieldMessage(errs[0]))] + Entries(errs[1..])
  }

  /** A map filled by storing each pair under its key in order. */
  function Stored(entries: seq<(string, string)>): map<string, string> {
    if entries == [] then map[]
    else Stored(entries[..|entries| - 1])[entries[|entries| - 1].0 := entries[|entries| - 1].1]
  }

  /** `j` is the last position holding key `key`. */
  predicate LastFor(entries: seq<(string, string)>, key: string, j: int) {
    0 <= j < |entries| && entries[j].0 == key &&
    forall k :: j < k < |entries| ==> entries[k].0 != key
  }

  /** The keys of the map are exactly the keys that occur. */
  lemma {:induction false} StoredKeys(entries: seq<(string, string)>)
    ensures forall key :: key in Stored(entries) <==> exists i :: 0 <= i < |entries| && entries[i].0 == key
  {
    if entries != [] {
      var init := entries[..|entries| - 1];
      StoredKeys(init);
      forall key | exists i :: 0 <= i < |entries| && entries[i].0 == key
        ensures key in Stored(entries)
      {
        var i :| 0 <= i < |entries| && entries[i].0 == key;
        if i < |entries| - 1 {
          assert init[i].0 == key;
        }
      }
      forall key | key in Stored(entries)
        ensures exists i :: 0 <= i < |entries| && entries[i].0 == key
      {
        if key != entries[|entries| - 1].0 {
          assert key in Stored(init);
          var i :| 0 <= i < |init| && init[i].0 == key;
          assert entries[i].0 == key;
        }
      }
    }
  }

  /** Each key holds the value of its last occurrence: later writes win. */
  lemma {:induction false} StoredLastWins(entries: seq<(string, string)>, key: string) returns (j: nat)
    requires key in Stored(entries)
    ensures LastFor(entries, key, j) && Stored(entries)[key] == entries[j].1
  {
    var init := entries[..|entries| - 1];
    if key == entries[|entries| - 1].0 {
      j := |entries| - 1;
    } else {
      j := StoredLastWins(init, key);
    }
  }

  /** The map-building loop of `ValidateStructWithFields`: each error's
      message stored under its field, in the library's order. */
  method FieldMessages(errs: seq<FieldError>) returns (m: map<string, string>)
    ensures m == Stored(Entries(errs))
  {
    var entries := Entries(errs);
    m := map[];
    var i := 0;
    while i < |entries|
      invariant 0 <= i <= |entries|
      invariant m == Stored(entries[..i])
    {
      var (field, message) := entries[i];
      assert entries[..i + 1][..i] == entries[..i];
      m := m[field := message];
      i := i + 1;
    }
    assert entries[..i] == entries;
  }

  /** `ValidateStructWithFields`: nil when valid, the per-field map for
      `ValidationErrors`, and the error text under "_general" otherwise. */
  method ValidateStructWithFields(check: Check) returns (r: Option<map<string, string>>)
    ensures check.Passed? <==> r.None?
    ensures check.Broken? ==> r == Some(map["_general" := check.message])
    ensures check.Invalid? ==> r == Some(Stored(Entries(check.errs)))
  {
    match check
    case Passed => r := None;
    case Broken(message) => r := Some(map["_general" := message]);
    case Invalid(errs) =>
      var m := FieldMessages(errs);
      r := Some(m);
  }
}
