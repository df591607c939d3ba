/**
 * How a web error becomes an HTTP response (src/web/response.rs): a few
 * errors have their own status and message, every other one is a generic
 * 500 carrying the error's display text, and the JSON body always repeats
 * the status that is sent.
 */
module Response {
  import opened Common
  import opened Errors

  const Unauthorized := 401
  const NotFound := 404
  const UnprocessableEntity := 422
  const InternalServerError := 500

  /**
   * `StatusCode::from_u16` of the http crate accepts exactly the three-digit
   * codes.
   */
  predicate ValidStatus(code: int) {
    100 <= code <= 999
  }

  /**
   * The `error` member of the body. The validator crate's JSON renderings of
   * field errors are not part of this model; they are carried as their text.
   */
  datatype ErrorBody =
    | Message(text: string)
    | FieldErrors(fields: string)
    | Validation(text: string)

  /** The response: the status sent and the body `{ "status": ..., "error": ... }`. */
  datatype HttpResponse = HttpResponse(status: int, bodyStatus: int, error: ErrorBody)

  /** The errors answered 401. */
  predicate IsAuthError(e: WebError) {
    e.UnauthorizedError? || e.JwtExpiredError? || e.JwtInvalidError?
  }

  /**
   * `handle_error_response` (src/web/response.rs:25-59): the specific status
   * and body of an error, or `None` for the generic fallback.
   */
  function HandleErrorResponse(e: WebError): (r: Option<(int, ErrorBody)>)
    ensures r.Some? ==> ValidStatus(r.value.0)
    ensures r.None? <==>
      || (e.WebDbError? && e.db != SQLiteError(QueryReturnedNoRows))
      || (e.WebClientError? && !e.client.ApiError?)
      || !(e.NotFoundError? || e.WebDbError? || e.WebClientError? || IsAuthError(e)
           || e.InvalidFormData? || e.ValidationErrors? || e.ValidationError?)
    ensures e.NotFoundError? || e == WebDbError(SQLiteError(QueryReturnedNoRows)) ==>
      r == Some((NotFound, Message(WebErrorText(NotFoundError))))
    ensures e.WebClientError? && e.client.ApiError? ==>
      r == Some((if ValidStatus(e.client.status) then e.client.status else InternalServerError,
                 Message(e.client.message)))
    ensures IsAuthError(e) ==> r == Some((Unauthorized, Message(WebErrorText(e))))
    ensures e.InvalidFormData? ==> r == Some((UnprocessableEntity, Message(e.message)))
    ensures e.ValidationErrors? || e.ValidationError? ==> r.Some? && r.value.0 == UnprocessableEntity
  {
    match e
    case NotFoundError => Some((NotFound, Message(WebErrorText(e))))
    case WebDbError(SQLiteError(QueryReturnedNoRows)) => Some((NotFound, Message(WebErrorText(NotFoundError))))
    case WebDbError(_) => None
    case WebClientError(ApiError(status, message)) =>
      Some((if ValidStatus(status) then status else InternalServerError, Message(message)))
    case WebClientError(_) => None
    case UnauthorizedError => Some((Unauthorized, Message(WebErrorText(e))))
    case JwtExpiredError => Some((Unauthorized, Message(WebErrorText(e))))
    case JwtInvalidError => Some((Unauthorized, Message(WebErrorText(e))))
    case InvalidFormData(m) => Some((UnprocessableEntity, Message(m)))
    case ValidationErrors(fields) => Some((UnprocessableEntity, FieldErrors(fields)))
    case ValidationError(text) => Some((UnprocessableEntity, Validation(text)))
    case _ => None
  }

  /**
   * `into_response` (src/web/response.rs:10-21): the specific response, or a
   * 500 whose message is the error's display text.
   */
  function IntoResponse(e: WebError): (r: HttpResponse)
    ensures r.bodyStatus == r.status
    ensures ValidStatus(r.status)
    ensures HandleErrorResponse(e).None? ==> r.status == InternalServerError && r.error == Message(WebErrorText(e))
    ensures HandleErrorResponse(e).Some? ==>
      r.status == HandleErrorResponse(e).value.0 && r.error == HandleErrorResponse(e).value.1
  {
    var (status, error) :=
      match HandleErrorResponse(e)
      case Some(answer) => answer
      case None => (InternalServerError, Message(WebErrorText(e)));
    HttpResponse(status, status, error)
  }

  /**
   * A 404 is sent exactly for a missing resource, for a query that found no
   * row, and for a 404 that the Spotify API answered.
   */
  lemma {:induction false} NotFoundExactly(e: WebError)
    ensures IntoResponse(e).status == NotFound <==>
      || e.NotFoundError?
      || e == WebDbError(SQLiteError(QueryReturnedNoRows))
      || (e.WebClientError? && e.client.ApiError? && e.client.status == NotFound)
  {
    var h := HandleErrorResponse(e);
    if e.ValidationErrors? || e.ValidationError? {
      assert h.value.0 == UnprocessableEntity;
    }
  }

  /**
   * A 401 is sent exactly for the three authentication errors and for a 401
   * that the Spotify API answered; an invalid CSRF token is not one of them
   * and gets the generic 500.
   */
  lemma {:induction false} UnauthorizedExactly(e: WebError)
    ensures IntoResponse(e).status == Unauthorized <==>
      || IsAuthError(e)
      || (e.WebClientError? && e.client.ApiError? && e.client.status == Unauthorized)
    ensures IntoResponse(CsrfInvalidError) == HttpResponse(InternalServerError, InternalServerError, Message("invalid csrf"))
  {
    var h := HandleErrorResponse(e);
    if e.ValidationErrors? || e.ValidationError? {
      assert h.value.0 == UnprocessableEntity;
    }
  }

  /**
   * A database error other than "no rows" is not shown as such: it is the
   * generic 500 with the database error's text.
   */
  lemma {:induction false} DatabaseErrorsAreInternal(db: DbError)
    requires db != SQLiteError(QueryReturnedNoRows)
    ensures IntoResponse(WebDbError(db)) == HttpResponse(InternalServerError, InternalServerError, Message(DbErrorText(db)))
  {
    assert HandleErrorResponse(WebDbError(db)).None?;
  }
}
