/** internal/response/response.go: the JSON envelope every handler answers
    with. A reply is modelled as the status written and the envelope
    encoded; the header (always `application/json`) and the encoding itself
    are not. */
module Responses {
  import opened Wrappers
  import opened GoInt

  const BadRequestCode := "BAD_REQUEST"
  const UnauthorizedCode := "UNAUTHORIZED"
  const ForbiddenCode := "FORBIDDEN"
  const NotFoundCode := "NOT_FOUND"
  const InternalServerCode := "INTERNAL_SERVER_ERROR"
  const ValidationCode := "VALIDATION_ERROR"
  const DuplicateEntryCode := "DUPLICATE_ENTRY"

  const InternalMessage := "An internal server error occurred"
  const ValidationMessage := "Validation failed"

  /** `ErrorResponse`; `details` and `fields` are left out of the JSON when
      empty. */
  datatype ErrorBody = ErrorBody(code: string, message: string, details: seq<string>, fields: map<string, string>)

  /** `MetaData`. */
  datatype Meta = Meta(page: int, perPage: int, totalPages: int, totalCount: int)

  /** `Response`; an absent part is one the JSON leaves out. */
  datatype Envelope<D> = Envelope(success: bool, data: Option<D>, error: Option<ErrorBody>, meta: Option<Meta>)

  datatype Reply<D> = Reply(status: int, body: Envelope<D>)

  /** `JSON`: the data, marked successful for a 2xx status. */
  function Json<D>(status: int, data: D): Reply<D> {
    Reply(status, Envelope(200 <= status && status < 300, Some(data), None, None))
  }

  /** `Error`: never successful, carries the code, message and details. */
  function Error<D>(status: int, code: string, message: string, details: seq<string>): Reply<D> {
    Reply(status, Envelope(false, None, Some(ErrorBody(code, message, details, map[])), None))
  }

  /** `ErrorWithFields`: as `Error`, with a message per field instead of
      details. */
  function ErrorWithFields<D>(status: int, code: string, message: string, fields: map<string, string>): Reply<D> {
    Reply(status, Envelope(false, None, Some(ErrorBody(code, message, [], fields)), None))
  }

  function BadRequest<D>(message: string, details: seq<string>): Reply<D> {
    Error(400, BadRequestCode, message, details)
  }

  function Unauthorized<D>(message: string): Reply<D> {
    Error(401, UnauthorizedCode, message, [])
  }

  function Forbidden<D>(message: string): Reply<D> {
    Error(403, ForbiddenCode, message, [])
  }

  function NotFound<D>(message: string): Reply<D> {
    Error(404, NotFoundCode, message, [])
  }

  function InternalError<D>(): Reply<D> {
    Error(500, InternalServerCode, InternalMessage, [])
  }

  function ValidationError<D>(details: seq<string>): Reply<D> {
    Error(400, ValidationCode, ValidationMessage, details)
  }

  function ValidationErrorWithFields<D>(fields: map<string, string>): Reply<D> {
    ErrorWithFields(400, ValidationCode, ValidationMessage, fields)
  }

  /** `WithPagination`: the number of pages is the count divided by the page
      size, rounded up, in Go's integer division. A page size of zero makes
      Go panic, so callers must not pass it. */
  function WithPagination<D>(status: int, data: D, page: int, perPage: int, totalCount: int): Reply<D>
    requires perPage != 0
  {
    var totalPages := Quot(totalCount + perPage - 1, perPage);
    Reply(status, Envelope(true, Some(data), None, Some(Meta(page, perPage, totalPages, totalCount))))
  }

  // ---------------------------------------------------------------------
  // Properties
  // ---------------------------------------------------------------------

  /** The success flag is the 2xx test: for a status that is not negative,
      exactly the statuses whose hundreds digit is 2. */
  lemma JsonSuccessIsTwoHundreds<D>(status: int, data: D)
    requires status >= 0
    ensures Json(status, data).body.success <==> Quot(status, 100) == 2
    ensures Json(status, data).status == status && Json(status, data).body.data == Some(data)
  {
    var q := Quot(status, 100);
    assert status == q * 100 + Rem(status, 100);
    assert 0 <= Rem(status, 100) < 100;
  }

  /** The status a standard code is sent with. */
  function StatusOf(code: string): Option<int> {
    if code == BadRequestCode || code == ValidationCode then Some(400)
    else if code == UnauthorizedCode then Some(401)
    else if code == ForbiddenCode then Some(403)
    else if code == NotFoundCode then Some(404)
    else if code == InternalServerCode then Some(500)
    else None
  }

  /** An unsuccessful error envelope without data whose status is the one
      its code stands for. */
  predicate StandardError<D>(r: Reply<D>) {
    && !r.body.success && r.body.data.None? && r.body.meta.None? && r.body.error.Some?
    && StatusOf(r.body.error.value.code) == Some(r.status)
  }

  /** The error a reply carries is exactly this one. */
  predicate Carries<D>(r: Reply<D>, code: string, message: string, details: seq<string>, fields: map<string, string>) {
    r.body.error == Some(ErrorBody(code, message, details, fields))
  }

  /** Every convenience helper answers with a standard error under its own
      code, passing its message, details and fields through (the internal
      and validation errors with their fixed messages); a bad request and a
      validation failure share a status but never a code. */
  lemma HelpersAgreeOnStatus<D>(message: string, details: seq<string>, fields: map<string, string>)
    ensures StandardError<D>(BadRequest(message, details))
    ensures StandardError<D>(Unauthorized(message))
    ensures StandardError<D>(Forbidden(message))
    ensures StandardError<D>(NotFound(message))
    ensures StandardError<D>(InternalError())
    ensures StandardError<D>(ValidationError(details))
    ensures StandardError<D>(ValidationErrorWithFields(fields))
    ensures Carries<D>(BadRequest(message, details), BadRequestCode, message, details, map[])
    ensures Carries<D>(Unauthorized(message), UnauthorizedCode, message, [], map[])
    ensures Carries<D>(Forbidden(message), ForbiddenCode, message, [], map[])
    ensures Carries<D>(NotFound(message), NotFoundCode, message, [], map[])
    ensures Carries<D>(InternalError(), InternalServerCode, InternalMessage, [], map[])
    ensures Carries<D>(ValidationError(details), ValidationCode, ValidationMessage, details, map[])
    ensures Carries<D>(ValidationErrorWithFields(fields), ValidationCode, ValidationMessage, [], fields)
    ensures BadRequest<D>(message, details).body.error.value.code != ValidationError<D>(details).body.error.value.code
  {
  }

  /** For a positive page size and a count that is not negative, the pages
      are the fewest that hold every item: there are no pages for no items,
      and otherwise the last page is neither empty nor overfull. */
  lemma PagesCoverCount<D>(status: int, data: D, page: int, perPage: int, totalCount: int)
    requires perPage > 0 && totalCount >= 0
    ensures var m := WithPagination(status, data, page, perPage, totalCount).body.meta.value;
            && m.totalPages >= 0
            && (m.totalPages == 0 <==> totalCount == 0)
            && m.totalPages * perPage >= totalCount
            && (totalCount > 0 ==> (m.totalPages - 1) * perPage < totalCount)
  {
    var n := totalCount + perPage - 1;
    var p := Quot(n, perPage);
    var r := Rem(n, perPage);
    assert n == p * perPage + r && 0 <= r < perPage;
    assert p * perPage == n - r;
    assert (p - 1) * perPage == n - r - perPage;
    if totalCount == 0 {
      assert n < perPage;
      assert p * perPage < perPage;
      assert p == 0;
    } else {
      assert p * perPage >= totalCount;
      assert p * perPage > 0;
    }
  }
}
