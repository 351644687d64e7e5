/**
 * The error enum of the database layer. Its definition file is not part of this
 * model; the variants are exactly those the conversion into `ServiceError` matches on.
 */
module Database {
  datatype DatabaseError =
    | Error
    | UsernameTaken
    | EmailTaken
    | UserNotFound
    | CategoryAlreadyExists
    | CategoryNotFound
    | TorrentNotFound
    | TorrentAlreadyExists
    | TorrentTitleAlreadyExists
    | UnrecognizedDatabaseDriver
}

/**
 * The service-wide error taxonomy: every variant, its display text, its HTTP status,
 * the error response built from it, and the conversions from the errors of the
 * libraries the handlers call.
 */
module Errors {
  import opened Wrappers
  import opened Text
  import Database

  datatype ServiceError =
    | InternalServerError
    | ClosedForRegistration
    | EmailMissing
    | EmailInvalid
    | NotAUrl
    | WrongPasswordOrUsername
    | UsernameNotFound
    | UserNotFound
    | AccountNotFound
    | ProfanityError
    | BlacklistError
    | UsernameCaseMappedError
    | PasswordTooShort
    | PasswordTooLong
    | PasswordsDontMatch
    | UsernameTaken
    | UsernameInvalid
    | EmailTaken
    | EmailNotVerified
    | TokenNotFound
    | TokenExpired
    | TokenInvalid
    | TorrentNotFound
    | InvalidTorrentFile
    | InvalidTorrentPiecesLength
    | InvalidFileType
    | BadRequest
    | InvalidCategory
    | Unauthorized
    | InfoHashAlreadyExists
    | TorrentTitleAlreadyExists
    | TrackerOffline
    | FailedToSendVerificationEmail
    | CategoryExists
    | InvitationMissing

  /**
   * The text the `Display` derive produces for each variant. The generic
   * "internal server error" text belongs to `InternalServerError` alone, so a reply
   * carrying it always reports an internal error.
   */
  function Display(e: ServiceError): (r: string)
    ensures e != InternalServerError ==> r != "internal server error"
  {
    match e
    case InternalServerError => "internal server error"
    case ClosedForRegistration => "This server is is closed for registration. Contact admin if this is unexpected"
    case EmailMissing => "Email is required"
    case EmailInvalid => "Please enter a valid email address"
    case NotAUrl => "The value you entered for URL is not a URL"
    case WrongPasswordOrUsername => "Invalid username/email or password"
    case UsernameNotFound => "Username not found"
    case UserNotFound => "User not found"
    case AccountNotFound => "Account not found"
    case ProfanityError => "Can't allow profanity in usernames"
    case BlacklistError => "Username contains blacklisted words"
    case UsernameCaseMappedError => "username_case_mapped violation"
    case PasswordTooShort => "Password too short"
    case PasswordTooLong => "Username too long"
    case PasswordsDontMatch => "Passwords don't match"
    case UsernameTaken => "Username not available"
    case UsernameInvalid => "Username contains illegal characters"
    case EmailTaken => "Email not available"
    case EmailNotVerified => "Please verify your email before logging in"
    case TokenNotFound => "Token not found. Please sign in."
    case TokenExpired => "Token expired. Please sign in again."
    case TokenInvalid => "Token invalid."
    case TorrentNotFound => "Torrent not found."
    case InvalidTorrentFile => "Uploaded torrent is not valid."
    case InvalidTorrentPiecesLength => "Uploaded torrent has an invalid pieces key."
    case InvalidFileType => "Only .torrent files can be uploaded."
    case BadRequest => "Bad request."
    case InvalidCategory => "Selected category does not exist."
    case Unauthorized => "Unauthorized action."
    case InfoHashAlreadyExists => "This torrent already exists in our database."
    case TorrentTitleAlreadyExists => "This torrent title has already been used."
    case TrackerOffline => "Sorry, we have an error with our tracker connection."
    case FailedToSendVerificationEmail => "Failed to send verification email."
    case CategoryExists => "Category already exists.."
    case InvitationMissing => "Invitation is required."
  }

  const BAD_REQUEST := 400
  const UNAUTHORIZED := 401
  const FORBIDDEN := 403
  const NOT_FOUND := 404
  const INTERNAL_SERVER_ERROR := 500

  /** Token problems: the client must sign in again. */
  predicate IsTokenError(e: ServiceError) {
    e.TokenNotFound? || e.TokenExpired? || e.TokenInvalid?
  }

  /** A looked-up account or name does not exist. */
  predicate IsLookupMiss(e: ServiceError) {
    e.UsernameNotFound? || e.UserNotFound? || e.AccountNotFound?
  }

  /** The request is understood but refused for this caller. */
  predicate IsRefusal(e: ServiceError) {
    e.ClosedForRegistration? || e.WrongPasswordOrUsername? || e.EmailNotVerified? || e.Unauthorized?
  }

  /**
   * The variants that reach the server-error status: `TrackerOffline`, listed
   * explicitly, and the three variants the match leaves to its wildcard arm.
   */
  predicate IsServerFault(e: ServiceError) {
    e.InternalServerError? || e.TrackerOffline? || e.EmailMissing? || e.FailedToSendVerificationEmail?
  }

  /**
   * `ResponseError::status_code`: one of five statuses, each taken by exactly one
   * group of variants; everything else is a bad request.
   */
  function StatusCode(e: ServiceError): (code: int)
    ensures code in {BAD_REQUEST, UNAUTHORIZED, FORBIDDEN, NOT_FOUND, INTERNAL_SERVER_ERROR}
    ensures code == UNAUTHORIZED <==> IsTokenError(e)
    ensures code == NOT_FOUND <==> IsLookupMiss(e)
    ensures code == FORBIDDEN <==> IsRefusal(e)
    ensures code == INTERNAL_SERVER_ERROR <==> IsServerFault(e)
  {
    match e
    case ClosedForRegistration => FORBIDDEN
    case EmailInvalid => BAD_REQUEST
    case NotAUrl => BAD_REQUEST
    case WrongPasswordOrUsername => FORBIDDEN
    case UsernameNotFound => NOT_FOUND
    case UserNotFound => NOT_FOUND
    case AccountNotFound => NOT_FOUND
    case ProfanityError => BAD_REQUEST
    case BlacklistError => BAD_REQUEST
    case UsernameCaseMappedError => BAD_REQUEST
    case PasswordTooShort => BAD_REQUEST
    case PasswordTooLong => BAD_REQUEST
    case PasswordsDontMatch => BAD_REQUEST
    case UsernameTaken => BAD_REQUEST
    case UsernameInvalid => BAD_REQUEST
    case EmailTaken => BAD_REQUEST
    case EmailNotVerified => FORBIDDEN
    case TokenNotFound => UNAUTHORIZED
    case TokenExpired => UNAUTHORIZED
    case TokenInvalid => UNAUTHORIZED
    case TorrentNotFound => BAD_REQUEST
    case InvalidTorrentFile => BAD_REQUEST
    case InvalidTorrentPiecesLength => BAD_REQUEST
    case InvalidFileType => BAD_REQUEST
    case BadRequest => BAD_REQUEST
    case InvalidCategory => BAD_REQUEST
    case Unauthorized => FORBIDDEN
    case InfoHashAlreadyExists => BAD_REQUEST
    case TorrentTitleAlreadyExists => BAD_REQUEST
    case TrackerOffline => INTERNAL_SERVER_ERROR
    case CategoryExists => BAD_REQUEST
    case InvitationMissing => BAD_REQUEST
    case _ => INTERNAL_SERVER_ERROR
  }

  /** The JSON body of an error response: `{"error": <text>}`. */
  datatype ErrorToResponse = ErrorToResponse(error: string)

  datatype HttpResponse = HttpResponse(status: int, contentType: string, body: ErrorToResponse)

  /**
   * `ResponseError::error_response`: a response whose status is the error's own
   * status code, always a client or server error, and whose body carries the
   * error's display text as JSON.
   */
  function ErrorResponse(e: ServiceError): (r: HttpResponse)
    ensures 400 <= r.status < 600 && r.status == StatusCode(e)
    ensures r.contentType == "application/json; charset=UTF-8"
    ensures r.body.error == Display(e)
  {
    HttpResponse(StatusCode(e), "application/json; charset=UTF-8", ErrorToResponse(Display(e)))
  }

  /**
   * `From<DatabaseError>`: total; the two internal database failures collapse to
   * `InternalServerError`, every other variant keeps its meaning (a taken name stays
   * a taken name, a missing user a missing user).
   */
  function FromDatabaseError(e: Database.DatabaseError): (r: ServiceError)
    ensures r.InternalServerError? <==> e.Error? || e.UnrecognizedDatabaseDriver?
    ensures r.UsernameTaken? <==> e.UsernameTaken?
    ensures r.EmailTaken? <==> e.EmailTaken?
    ensures r.UserNotFound? <==> e.UserNotFound?
    ensures r.CategoryExists? <==> e.CategoryAlreadyExists?
    ensures r.InvalidCategory? <==> e.CategoryNotFound?
    ensures r.TorrentNotFound? <==> e.TorrentNotFound?
    ensures r.InfoHashAlreadyExists? <==> e.TorrentAlreadyExists?
    ensures r.TorrentTitleAlreadyExists? <==> e.TorrentTitleAlreadyExists?
    ensures StatusCode(r) == NOT_FOUND <==> e.UserNotFound?
    ensures StatusCode(r) == INTERNAL_SERVER_ERROR <==> r.InternalServerError?
  {
    match e
    case Error => InternalServerError
    case UsernameTaken => UsernameTaken
    case EmailTaken => EmailTaken
    case UserNotFound => UserNotFound
    case CategoryAlreadyExists => CategoryExists
    case CategoryNotFound => InvalidCategory
    case TorrentNotFound => TorrentNotFound
    case TorrentAlreadyExists => InfoHashAlreadyExists
    case TorrentTitleAlreadyExists => TorrentTitleAlreadyExists
    case UnrecognizedDatabaseDriver => InternalServerError
  }

  /**
   * A `sqlx::Error` as far as the conversion looks at it: a database error with its
   * optional driver code and its message, or any other kind of failure.
   */
  datatype SqlxError =
    | DatabaseFailure(code: Option<string>, message: string)
    | OtherFailure

  const SQLITE_CONSTRAINT_UNIQUE := "2067"
  const INFO_HASH_COLUMN := "torrust_torrents.info_hash"

  /**
   * `From<sqlx::Error>`: a unique-constraint violation on the info-hash column is a
   * duplicate torrent; the same code on any other column is an internal error; every
   * other database error, with or without a code, reads as a missing torrent; a
   * failure that is not a database error is an internal error.
   */
  function FromSqlxError(e: SqlxError): (r: ServiceError)
    ensures r.InfoHashAlreadyExists? || r.InternalServerError? || r.TorrentNotFound?
    ensures r.InfoHashAlreadyExists? <==>
      e.DatabaseFailure? && e.code == Some(SQLITE_CONSTRAINT_UNIQUE) &&
      exists i :: OccursAt(INFO_HASH_COLUMN, e.message, i)
    ensures r.TorrentNotFound? <==> e.DatabaseFailure? && e.code != Some(SQLITE_CONSTRAINT_UNIQUE)
    ensures e.OtherFailure? ==> r.InternalServerError?
  {
    match e
    case DatabaseFailure(code, message) =>
      if code == Some(SQLITE_CONSTRAINT_UNIQUE) then
        if Contains(message, INFO_HASH_COLUMN) then InfoHashAlreadyExists else InternalServerError
      else
        TorrentNotFound
    case OtherFailure => InternalServerError
  }

  /** The foreign error types converted by a catch-all `From` implementation. */
  datatype ForeignError = Argon2Error | IoError | BoxedError | SerdeJsonError

  /**
   * `From<argon2::password_hash::Error>`, `From<std::io::Error>`,
   * `From<Box<dyn Error>>` and `From<serde_json::Error>`: whatever went wrong, the
   * caller only sees an internal server error.
   */
  function FromForeignError(e: ForeignError): (r: ServiceError)
    ensures r == InternalServerError && StatusCode(r) == INTERNAL_SERVER_ERROR
  {
    InternalServerError
  }
}
