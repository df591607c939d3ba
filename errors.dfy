/**
 * The error enums of the crate as datatypes, with the display texts that
 * `thiserror` derives from their `#[error(...)]` attributes. Errors that wrap
 * a foreign library's error (`#[error(transparent)]`) carry a text payload,
 * since the foreign type is not modelled; for the two chrono parse errors
 * that payload is the text that failed to parse, not chrono's message.
 */
module Errors {

  /** Decimal rendering of a natural number, as `format!("{}", n)` prints it. */
  function NatToDecimal(n: nat): (r: string)
    ensures |r| >= 1
    ensures forall i :: 0 <= i < |r| ==> '0' <= r[i] <= '9'
  {
    if n < 10 then [(n + '0' as int) as char]
    else NatToDecimal(n / 10) + [((n % 10) + '0' as int) as char]
  }

  /** Rendering of a possibly negative integer. */
  function IntToDecimal(n: int): string {
    if n < 0 then "-" + NatToDecimal(-n) else NatToDecimal(n)
  }

  /**
   * The rusqlite errors the model produces. `QueryReturnedNoRows` and the
   * constraint violation are the two the web layer inspects; the column
   * errors are the ones `Row::get` raises while decoding a row.
   */
  datatype SqliteError =
    | QueryReturnedNoRows
    | ConstraintViolation(text: string)
    | InvalidColumnIndex(index: nat)
    | InvalidColumnType(index: nat)
    | IntegralValueOutOfRange(index: nat, value: int)
    | OtherSqliteError(text: string)

  function SqliteErrorText(e: SqliteError): string {
    match e
    case QueryReturnedNoRows => "Query returned no rows"
    case ConstraintViolation(text) => text
    case InvalidColumnIndex(i) => "Invalid column index: " + NatToDecimal(i)
    case InvalidColumnType(i) => "Invalid column type at index: " + NatToDecimal(i)
    case IntegralValueOutOfRange(i, v) => "Integer " + IntToDecimal(v) + " out of range at index " + NatToDecimal(i)
    case OtherSqliteError(text) => text
  }

  /** `DbError` (src/db/error.rs). */
  datatype DbError =
    | InvalidId(id: string)
    | InvalidSyncInterval(interval: string)
    | DateParseError(input: string)
    | PoolError(text: string)
    | SQLiteError(sqlite: SqliteError)
    | DbJsonError(text: string)

  function DbErrorText(e: DbError): string {
    match e
    case InvalidId(id) => "invalid ID: " + id
    case InvalidSyncInterval(s) => "invalid sync interval: " + s
    case DateParseError(input) => input
    case PoolError(text) => text
    case SQLiteError(inner) => SqliteErrorText(inner)
    case DbJsonError(text) => text
  }

  /**
   * Errors of calls to the remote API (`ClientError`, src/api/error.rs; the
   * rspotify client's own errors are folded into `Transport`).
   */
  datatype ClientError =
    | ApiError(status: int, message: string)
    | MissingAccessToken
    | MissingRefreshToken
    | MissingToken
    | Transport(text: string)
    | ClientDbError(db: DbError)

  function ClientErrorText(e: ClientError): string {
    match e
    case ApiError(status, message) => "spotify " + IntToDecimal(status) + " error: " + message
    case MissingAccessToken => "missing access token"
    case MissingRefreshToken => "missing refresh token"
    case MissingToken => "missing token"
    case Transport(text) => text
    case ClientDbError(db) => DbErrorText(db)
  }

  /**
   * The crate-level error (`crate::Error`, src/error.rs), of which the model
   * keeps the wrapped client and database errors. src/error.rs declares no
   * variant for what src/api/id.rs, src/util/jwt.rs and the `anyhow!(...)`
   * messages of the transfer and the token refresh raise; the remaining
   * variants and their display texts are this model's own.
   */
  datatype Error =
    | Client(client: ClientError)
    | Db(db: DbError)
    | Anyhow(message: string)
    | InvalidSpotifyId(input: string)
    | InvalidJwt
    | JwtExpired
    | JwtSignatureError
    | ChronoParseError(input: string)

  /** `WebError` (src/web/error.rs). */
  datatype WebError =
    | InvalidFormData(message: string)
    | NotFoundError
    | UnauthorizedError
    | JwtExpiredError
    | JwtInvalidError
    | CsrfInvalidError
    | WebChronoParseError(text: string)
    | AddrParseError(text: string)
    | HmacError(text: string)
    | JwtError(text: string)
    | ValidationError(text: string)
    | ValidationErrors(text: string)
    | InvalidHeaderValueError(text: string)
    | WebJsonError(text: string)
    | IOError(text: string)
    | WebClientError(client: ClientError)
    | SyncError(text: string)
    | WebDbError(db: DbError)
    | AppError(app: Error)

  function ErrorText(e: Error): string {
    match e
    case Client(c) => ClientErrorText(c)
    case Db(d) => DbErrorText(d)
    case Anyhow(m) => m
    case InvalidSpotifyId(s) => "invalid spotify id: " + s
    case InvalidJwt => "invalid jwt"
    case JwtExpired => "jwt expired"
    case JwtSignatureError => "jwt signature error"
    case ChronoParseError(input) => input
  }

  /** `Display` of a `WebError`, as derived by `thiserror`. */
  function WebErrorText(e: WebError): string {
    match e
    case InvalidFormData(m) => "invalid form data: " + m
    case NotFoundError => "resource not found"
    case UnauthorizedError => "unauthorized"
    case JwtExpiredError => "jwt expired"
    case JwtInvalidError => "invalid jwt"
    case CsrfInvalidError => "invalid csrf"
    case WebChronoParseError(t) => t
    case AddrParseError(t) => t
    case HmacError(t) => t
    case JwtError(t) => t
    case ValidationError(t) => t
    case ValidationErrors(t) => t
    case InvalidHeaderValueError(t) => t
    case WebJsonError(t) => t
    case IOError(t) => t
    case WebClientError(c) => ClientErrorText(c)
    case SyncError(t) => t
    case WebDbError(d) => DbErrorText(d)
    case AppError(a) => ErrorText(a)
  }
}
