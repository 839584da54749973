/** internal/util/error.go: the application error with a code, a message
    and optional details. */
module AppErrors {
  import opened Text

  datatype AppError = AppError(code: string, message: string, details: seq<string>)

  /** `NewAppError`: the details in argument order, none when none are given. */
  function NewAppError(code: string, message: string, details: seq<string>): AppError {
    AppError(code, message, details)
  }

  /** `Error()`: "code: message". */
  function ErrorText(e: AppError): string {
    e.code + ": " + e.message
  }

  /** The text never depends on the details, and for a code without ':' the
      code and the message can be read back from it. */
  lemma ErrorTextParsesBack(code: string, message: string, details: seq<string>, other: seq<string>)
    requires ':' !in code
    ensures var t := ErrorText(NewAppError(code, message, details));
            && t == ErrorText(NewAppError(code, message, other))
            && Before(t, ':') == code
            && t[|code|..|code| + 2] == ": "
            && t[|code| + 2..] == message
  {
    var t := ErrorText(NewAppError(code, message, details));
    assert t[..|code|] == code;
    assert t[|code|] == ':';
    IndexOfAfter(code, ':', " " + message);
    assert t == code + ([':'] + (" " + message));
  }

  /** Distinct codes or messages give distinct texts when codes carry no ':'. */
  lemma ErrorTextInjective(e: AppError, f: AppError)
    requires ':' !in e.code && ':' !in f.code
    requires ErrorText(e) == ErrorText(f)
    ensures e.code == f.code && e.message == f.message
  {
    ErrorTextParsesBack(e.code, e.message, e.details, e.details);
    ErrorTextParsesBack(f.code, f.message, f.details, f.details);
  }
}
