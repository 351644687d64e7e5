/**
 * The rules of the user handlers: the ordered validation of a registration, the
 * first-account administrator grant, the login guards, the token-renewal window,
 * e-mail verification and the administrator check on banning. Database, mailer,
 * password-hashing and token-signing results are parameters; each handler reports
 * the service calls it issued, in order, beside its response.
 */
module UserRoutes {
  import opened Wrappers
  import opened Primitives
  import opened Text
  import opened Errors
  import Database

  /**
   * The `EmailOnSignup` and `InvitatiOnOnSignup` settings: the field must be given,
   * may be given, or is ignored (`Disabled` stands for the configuration's `None`).
   */
  datatype SignupPolicy = Required | Optional | Disabled

  datatype AuthSettings = AuthSettings(
    emailOnSignup: SignupPolicy,
    invitationOnSignup: SignupPolicy,
    minPasswordLength: Usize,
    maxPasswordLength: Usize)

  datatype MailSettings = MailSettings(emailVerificationEnabled: bool)

  datatype Settings = Settings(auth: AuthSettings, mail: MailSettings)

  /** The bodies of the register, login and token requests. */
  datatype RegisterRequest = RegisterRequest(
    username: string,
    email: Option<string>,
    password: string,
    confirmPassword: string,
    invitation: Option<string>)

  datatype LoginRequest = LoginRequest(login: string, password: string)

  datatype TokenRequest = TokenRequest(token: string)

  /** The user records the handlers read (their definitions are not part of this model). */
  datatype UserProfile = UserProfile(userId: UserId, username: string, emailVerified: bool)

  datatype UserAuthentication = UserAuthentication(userId: UserId, passwordHash: string)

  datatype UserCompact = UserCompact(userId: UserId, username: string, administrator: bool)

  /** The claims of a session token, with its expiry in seconds since the epoch. */
  datatype UserClaims = UserClaims(user: UserCompact, exp: U64)

  /** The claims of an e-mail verification token. */
  datatype VerifyClaims = VerifyClaims(iss: string, sub: UserId)

  datatype TokenResponse = TokenResponse(token: string, username: string, admin: bool)

  /** A call a handler makes on the database or the mailer. */
  datatype ServiceCall =
    | InsertUserAndGetId(username: string, email: string, passwordHash: string)
    | GrantAdminRole(userId: UserId)
    | DeleteUser(userId: UserId)
    | SendVerificationMail(email: string, username: string, userId: UserId)
    | GetUserProfileFromUsername(username: string)
    | GetUserAuthenticationFromId(userId: UserId)
    | GetUserCompactFromId(userId: UserId)
    | MarkEmailVerified(userId: UserId)
    | BanUserUntil(userId: UserId, reason: string, dateExpiry: string)

  /** A handler's response together with the calls it issued, in order. */
  datatype Reply<T> = Reply(response: T, calls: seq<ServiceCall>)

  // ---------------------------------------------------------------------------
  // register

  predicate InvitationMissingFor(auth: AuthSettings, payload: RegisterRequest) {
    auth.invitationOnSignup == Required && payload.invitation.None?
  }

  predicate EmailMissingFor(auth: AuthSettings, payload: RegisterRequest) {
    auth.emailOnSignup == Required && payload.email.None?
  }

  /** The invitation and e-mail that survive the signup policies. */
  function KeptInvitation(auth: AuthSettings, payload: RegisterRequest): Option<string> {
    if auth.invitationOnSignup == Disabled then None else payload.invitation
  }

  function KeptEmail(auth: AuthSettings, payload: RegisterRequest): Option<string> {
    if auth.emailOnSignup == Disabled then None else payload.email
  }

  predicate EmailRejected(auth: AuthSettings, payload: RegisterRequest, isValidEmail: string -> bool) {
    KeptEmail(auth, payload).Some? && !isValidEmail(KeptEmail(auth, payload).value)
  }

  predicate PasswordTooShortFor(auth: AuthSettings, password: string) {
    Utf8Len(password) <= auth.minPasswordLength as int
  }

  predicate PasswordTooLongFor(auth: AuthSettings, password: string) {
    Utf8Len(password) >= auth.maxPasswordLength as int
  }

  /**
   * The checks of `register` up to the password length, with the payload as the
   * policies leave it. They run in a fixed order and the first failure decides the
   * error; a payload that passes has a password strictly between the two length
   * bounds, counted in UTF-8 bytes, and comes back with an ignored invitation or
   * e-mail cleared and every other field as given.
   */
  function ValidateRegistration(auth: AuthSettings, payload: RegisterRequest, isValidEmail: string -> bool)
    : (r: Result<RegisterRequest, ServiceError>)
    ensures InvitationMissingFor(auth, payload) ==> r == Err(InvitationMissing)
    ensures !InvitationMissingFor(auth, payload) && EmailMissingFor(auth, payload) ==> r == Err(EmailMissing)
    ensures (!InvitationMissingFor(auth, payload) && !EmailMissingFor(auth, payload) &&
             EmailRejected(auth, payload, isValidEmail)) ==> r == Err(EmailInvalid)
    ensures (!InvitationMissingFor(auth, payload) && !EmailMissingFor(auth, payload) &&
             !EmailRejected(auth, payload, isValidEmail) && payload.password != payload.confirmPassword) ==>
      r == Err(PasswordsDontMatch)
    ensures (!InvitationMissingFor(auth, payload) && !EmailMissingFor(auth, payload) &&
             !EmailRejected(auth, payload, isValidEmail) && payload.password == payload.confirmPassword &&
             PasswordTooShortFor(auth, payload.password)) ==> r == Err(PasswordTooShort)
    ensures (!InvitationMissingFor(auth, payload) && !EmailMissingFor(auth, payload) &&
             !EmailRejected(auth, payload, isValidEmail) && payload.password == payload.confirmPassword &&
             !PasswordTooShortFor(auth, payload.password) && PasswordTooLongFor(auth, payload.password)) ==>
      r == Err(PasswordTooLong)
    ensures r.Ok? <==>
      !InvitationMissingFor(auth, payload) && !EmailMissingFor(auth, payload) &&
      !EmailRejected(auth, payload, isValidEmail) && payload.password == payload.confirmPassword &&
      !PasswordTooShortFor(auth, payload.password) && !PasswordTooLongFor(auth, payload.password)
    ensures r.Ok? ==>
      auth.minPasswordLength as int < Utf8Len(r.value.password) < auth.maxPasswordLength as int
    ensures r.Ok? ==> r.value == payload.(invitation := KeptInvitation(auth, payload), email := KeptEmail(auth, payload))
    ensures r.Ok? && auth.emailOnSignup == Required ==> r.value.email.Some?
    ensures r.Ok? && r.value.email.Some? ==> isValidEmail(r.value.email.value)
  {
    if auth.invitationOnSignup == Required && payload.invitation.None? then
      Err(InvitationMissing)
    else
      var payload := if auth.invitationOnSignup == Disabled then payload.(invitation := None) else payload;
      if auth.emailOnSignup == Required && payload.email.None? then
        Err(EmailMissing)
      else
        var payload := if auth.emailOnSignup == Disabled then payload.(email := None) else payload;
        if payload.email.Some? && !isValidEmail(payload.email.value) then
          Err(EmailInvalid)
        else if payload.password != payload.confirmPassword then
          Err(PasswordsDontMatch)
        else
          var passwordLength := Utf8Len(payload.password);
          if passwordLength <= auth.minPasswordLength as int then
            Err(PasswordTooShort)
          else if passwordLength >= auth.maxPasswordLength as int then
            Err(PasswordTooLong)
          else
            Ok(payload)
  }

  /** The accounts created with this id get administrator rights. */
  predicate IsFirstAccount(userId: UserId) {
    userId == 1
  }

  /** The registration passed validation, hashing and the username check. */
  predicate Admitted(payload: Result<RegisterRequest, ServiceError>, passwordHash: Option<string>) {
    payload.Ok? && passwordHash.Some? && '@' !in payload.value.username
  }

  /**
   * `register`. `passwordHash` is the Argon2 result (`None` when hashing failed),
   * `insertAnswer` the database's answer to the insert, `mailSucceeds` the mailer's.
   * Validation, then hashing, then the username's `@` check decide failures before
   * any call is made. An admitted user is inserted with the e-mail kept by the policy
   * or `""`; only the account with id 1 is granted administrator rights; when
   * verification is enabled and an e-mail was kept, a verification mail is sent and,
   * if that fails, the new user is deleted again and the registration fails.
   */
  method Register(
    settings: Settings, payload: RegisterRequest, isValidEmail: string -> bool,
    passwordHash: Option<string>, insertAnswer: Result<UserId, Database.DatabaseError>, mailSucceeds: bool)
    returns (reply: Reply<Result<(), ServiceError>>)
    ensures var v := ValidateRegistration(settings.auth, payload, isValidEmail);
      v.Err? ==> reply == Reply(Err(v.error), [])
    ensures var v := ValidateRegistration(settings.auth, payload, isValidEmail);
      v.Ok? && passwordHash.None? ==> reply == Reply(Err(InternalServerError), [])
    ensures var v := ValidateRegistration(settings.auth, payload, isValidEmail);
      v.Ok? && passwordHash.Some? && '@' in v.value.username ==> reply == Reply(Err(UsernameInvalid), [])
    ensures forall c | c in reply.calls :: c.GrantAdminRole? ==> IsFirstAccount(c.userId)
    ensures var v := ValidateRegistration(settings.auth, payload, isValidEmail);
      forall c | c in reply.calls :: c.SendVerificationMail? ==>
        settings.mail.emailVerificationEnabled && v.Ok? && v.value.email == Some(c.email)
    ensures var v := ValidateRegistration(settings.auth, payload, isValidEmail);
      Admitted(v, passwordHash) && insertAnswer.Err? ==>
        reply == Reply(Err(FromDatabaseError(insertAnswer.error)),
                       [InsertUserAndGetId(v.value.username, v.value.email.GetOr(""), passwordHash.value)])
    ensures var v := ValidateRegistration(settings.auth, payload, isValidEmail);
      Admitted(v, passwordHash) && insertAnswer.Ok? ==>
        var mailed := settings.mail.emailVerificationEnabled && v.value.email.Some?;
        reply.calls ==
          [InsertUserAndGetId(v.value.username, v.value.email.GetOr(""), passwordHash.value)] +
          (if IsFirstAccount(insertAnswer.value) then [GrantAdminRole(insertAnswer.value)] else []) +
          (if mailed then
             [SendVerificationMail(v.value.email.value, v.value.username, insertAnswer.value)] +
             (if mailSucceeds then [] else [DeleteUser(insertAnswer.value)])
           else [])
    ensures var v := ValidateRegistration(settings.auth, payload, isValidEmail);
      Admitted(v, passwordHash) && insertAnswer.Ok? &&
      settings.mail.emailVerificationEnabled && v.value.email.Some? && !mailSucceeds ==>
        reply.response == Err(FailedToSendVerificationEmail)
    ensures var v := ValidateRegistration(settings.auth, payload, isValidEmail);
      reply.response.Ok? <==>
        Admitted(v, passwordHash) && insertAnswer.Ok? &&
        (settings.mail.emailVerificationEnabled && v.value.email.Some? ==> mailSucceeds)
    ensures reply.response == Err(FailedToSendVerificationEmail) <==>
      reply.calls != [] && reply.calls[|reply.calls| - 1].DeleteUser?
    ensures forall c | c in reply.calls :: c.DeleteUser? ==>
      insertAnswer.Ok? && c.userId == insertAnswer.value && !mailSucceeds
  {
    var validated := ValidateRegistration(settings.auth, payload, isValidEmail);
    if validated.Err? {
      return Reply(Err(validated.error), []);
    }
    var payload := validated.value;

    if passwordHash.None? {
      return Reply(Err(FromForeignError(Argon2Error)), []);
    }

    if '@' in payload.username {
      return Reply(Err(UsernameInvalid), []);
    }

    var email := payload.email.GetOr("");
    var calls := [InsertUserAndGetId(payload.username, email, passwordHash.value)];
    if insertAnswer.Err? {
      return Reply(Err(FromDatabaseError(insertAnswer.error)), calls);
    }
    var userId := insertAnswer.value;

    if IsFirstAccount(userId) {
      calls := calls + [GrantAdminRole(userId)];
    }

    if settings.mail.emailVerificationEnabled && payload.email.Some? {
      calls := calls + [SendVerificationMail(payload.email.value, payload.username, userId)];
      if !mailSucceeds {
        calls := calls + [DeleteUser(userId)];
        return Reply(Err(FailedToSendVerificationEmail), calls);
      }
    }

    return Reply(Ok(()), calls);
  }

  // ---------------------------------------------------------------------------
  // login

  /**
   * `login`. `profile` and `authentication` are the database's answers for the
   * login name and for that user's id, `compact` its answer for the compact record;
   * `parsesAsHash`, `verifiesPassword` and `signJwt` stand for Argon2 and the token
   * signer. A token is issued only for a known user whose password verifies and,
   * when verification is enabled, whose e-mail is verified; it is signed for the
   * compact record, which is not even looked up before those checks pass. An unknown
   * name and a wrong password give the same error.
   */
  function Login(
    payload: LoginRequest, settings: Settings,
    profile: Option<UserProfile>, authentication: Option<UserAuthentication>,
    compact: Result<UserCompact, Database.DatabaseError>,
    parsesAsHash: string -> bool, verifiesPassword: (string, string) -> bool,
    signJwt: UserCompact -> string)
    : (reply: Reply<Result<TokenResponse, ServiceError>>)
    ensures reply.response == Err(WrongPasswordOrUsername) <==>
      profile.None? ||
      (authentication.Some? && parsesAsHash(authentication.value.passwordHash) &&
       !verifiesPassword(payload.password, authentication.value.passwordHash))
    ensures reply.response == Err(EmailNotVerified) <==>
      profile.Some? && authentication.Some? && parsesAsHash(authentication.value.passwordHash) &&
      verifiesPassword(payload.password, authentication.value.passwordHash) &&
      settings.mail.emailVerificationEnabled && !profile.value.emailVerified
    ensures reply.response.Ok? <==>
      profile.Some? && authentication.Some? && parsesAsHash(authentication.value.passwordHash) &&
      verifiesPassword(payload.password, authentication.value.passwordHash) &&
      (settings.mail.emailVerificationEnabled ==> profile.value.emailVerified) &&
      compact.Ok?
    ensures reply.response.Ok? ==>
      reply.response.value == TokenResponse(signJwt(compact.value), compact.value.username, compact.value.administrator)
    ensures profile.Some? && authentication.None? ==> reply.response == Err(InternalServerError)
    ensures profile.Some? && authentication.Some? && !parsesAsHash(authentication.value.passwordHash) ==>
      reply.response == Err(InternalServerError)
    ensures (profile.Some? && authentication.Some? && parsesAsHash(authentication.value.passwordHash) &&
             verifiesPassword(payload.password, authentication.value.passwordHash) &&
             (settings.mail.emailVerificationEnabled ==> profile.value.emailVerified) && compact.Err?) ==>
      reply.response == Err(FromDatabaseError(compact.error))
    ensures reply.calls ==
      [GetUserProfileFromUsername(payload.login)] +
      (if profile.None? then [] else
         [GetUserAuthenticationFromId(profile.value.userId)] +
         (if authentication.Some? && parsesAsHash(authentication.value.passwordHash) &&
             verifiesPassword(payload.password, authentication.value.passwordHash) &&
             (settings.mail.emailVerificationEnabled ==> profile.value.emailVerified)
          then [GetUserCompactFromId(profile.value.userId)] else []))
    ensures forall c | c in reply.calls :: c.GetUserCompactFromId? ==>
      profile.Some? && c.userId == profile.value.userId &&
      authentication.Some? && verifiesPassword(payload.password, authentication.value.passwordHash) &&
      (settings.mail.emailVerificationEnabled ==> profile.value.emailVerified)
  {
    match profile
    case None => Reply(Err(WrongPasswordOrUsername), [GetUserProfileFromUsername(payload.login)])
    case Some(userProfile) =>
      var calls := [GetUserProfileFromUsername(payload.login), GetUserAuthenticationFromId(userProfile.userId)];
      match authentication
      case None => Reply(Err(InternalServerError), calls)
      case Some(userAuthentication) =>
        if !parsesAsHash(userAuthentication.passwordHash) then
          Reply(Err(FromForeignError(Argon2Error)), calls)
        else if !verifiesPassword(payload.password, userAuthentication.passwordHash) then
          Reply(Err(WrongPasswordOrUsername), calls)
        else if settings.mail.emailVerificationEnabled && !userProfile.emailVerified then
          Reply(Err(EmailNotVerified), calls)
        else
          var calls := calls + [GetUserCompactFromId(userProfile.userId)];
          match compact
          case Err(e) => Reply(Err(FromDatabaseError(e)), calls)
          case Ok(userCompact) =>
            Reply(Ok(TokenResponse(signJwt(userCompact), userCompact.username, userCompact.administrator)), calls)
  }

  // ---------------------------------------------------------------------------
  // verify_token and renew_token

  /** `verify_token`: succeeds exactly when the token verifies, with a fixed message. */
  function VerifyToken(claims: Result<UserClaims, ServiceError>): (r: Result<string, ServiceError>)
    ensures r.Ok? <==> claims.Ok?
    ensures r.Ok? ==> r.value == "Token is valid."
    ensures claims.Err? ==> r == Err(claims.error)
  {
    match claims
    case Err(e) => Err(e)
    case Ok(_) => Ok("Token is valid.")
  }

  const ONE_WEEK_IN_SECONDS: U64 := 604_800

  /**
   * The renewal decision: a token still valid for less than one week is renewed. The
   * u64 subtraction `exp - now` wraps when the token has already expired, so such a
   * token is not renewed unless it expired more than 2^64 - 604800 seconds ago.
   */
  predicate NeedsRenewal(exp: U64, now: U64)
    ensures now <= exp ==> (NeedsRenewal(exp, now) <==> (exp - now) < ONE_WEEK_IN_SECONDS)
    ensures exp < now && now as int - exp as int <= U64_MAX + 1 - ONE_WEEK_IN_SECONDS as int ==>
      !NeedsRenewal(exp, now)
  {
    WrappingSub(exp, now) < ONE_WEEK_IN_SECONDS
  }

  /**
   * `renew_token`: with a verified token and the user found, the reply carries a
   * freshly signed token when the old one needs renewal and the old token itself
   * otherwise, with the user's name and administrator flag.
   */
  function RenewToken(
    payload: TokenRequest, claims: Result<UserClaims, ServiceError>,
    compact: Result<UserCompact, Database.DatabaseError>, signJwt: UserCompact -> string, now: U64)
    : (reply: Reply<Result<TokenResponse, ServiceError>>)
    ensures claims.Err? ==> reply == Reply(Err(claims.error), [])
    ensures claims.Ok? ==> reply.calls == [GetUserCompactFromId(claims.value.user.userId)]
    ensures claims.Ok? && compact.Err? ==> reply.response == Err(FromDatabaseError(compact.error))
    ensures reply.response.Ok? <==> claims.Ok? && compact.Ok?
    ensures reply.response.Ok? ==>
      reply.response.value.username == compact.value.username &&
      reply.response.value.admin == compact.value.administrator
    ensures reply.response.Ok? ==>
      reply.response.value.token ==
        if NeedsRenewal(claims.value.exp, now) then signJwt(compact.value) else payload.token
  {
    match claims
    case Err(e) => Reply(Err(e), [])
    case Ok(userClaims) =>
      var calls := [GetUserCompactFromId(userClaims.user.userId)];
      match compact
      case Err(e) => Reply(Err(FromDatabaseError(e)), calls)
      case Ok(userCompact) =>
        var token := if NeedsRenewal(userClaims.exp, now) then signJwt(userCompact) else payload.token;
        Reply(Ok(TokenResponse(token, userCompact.username, userCompact.administrator)), calls)
  }

  // ---------------------------------------------------------------------------
  // verify_email

  const EMAIL_VERIFICATION_ISSUER := "email-verification"
  const EMAIL_VERIFIED_PAGE := "Email verified, you can close this page."

  /**
   * `verify_email`. `decoded` is the decoded, signature-checked token (`None` when
   * decoding failed) and `databaseVerifies` the database's answer. The account is
   * marked verified only for a token issued for e-mail verification; the reply is a
   * plain text: the confirmation, or the display text of the error.
   */
  function VerifyEmail(decoded: Option<VerifyClaims>, databaseVerifies: bool): (reply: Reply<string>)
    ensures reply.response == EMAIL_VERIFIED_PAGE <==>
      decoded.Some? && decoded.value.iss == EMAIL_VERIFICATION_ISSUER && databaseVerifies
    ensures reply.response == Display(TokenInvalid) <==>
      decoded.None? || decoded.value.iss != EMAIL_VERIFICATION_ISSUER
    ensures reply.response == Display(InternalServerError) <==>
      decoded.Some? && decoded.value.iss == EMAIL_VERIFICATION_ISSUER && !databaseVerifies
    ensures reply.calls ==
      if decoded.Some? && decoded.value.iss == EMAIL_VERIFICATION_ISSUER
      then [MarkEmailVerified(decoded.value.sub)] else []
  {
    match decoded
    case None => Reply(Display(TokenInvalid), [])
    case Some(claims) =>
      if claims.iss != EMAIL_VERIFICATION_ISSUER then
        Reply(Display(TokenInvalid), [])
      else if !databaseVerifies then
        Reply(Display(InternalServerError), [MarkEmailVerified(claims.sub)])
      else
        Reply(EMAIL_VERIFIED_PAGE, [MarkEmailVerified(claims.sub)])
  }

  // ---------------------------------------------------------------------------
  // ban_user

  const BAN_REASON := "no reason"
  const BAN_EXPIRY := "9999-01-01 00:00:00"

  /**
   * `ban_user`. `requester` is the authenticated caller, `target` the name from the
   * path, `profile` and `banAnswer` the database's answers. A caller who is not an
   * administrator is refused before any lookup; otherwise the target is looked up
   * and banned until the year 9999.
   */
  function BanUser(
    requester: Result<UserCompact, ServiceError>, target: string,
    profile: Result<UserProfile, Database.DatabaseError>, banAnswer: Result<(), Database.DatabaseError>)
    : (reply: Reply<Result<string, ServiceError>>)
    ensures requester.Err? ==> reply == Reply(Err(requester.error), [])
    ensures requester.Ok? && !requester.value.administrator ==> reply == Reply(Err(Unauthorized), [])
    ensures reply.calls != [] ==>
      requester.Ok? && requester.value.administrator && reply.calls[0] == GetUserProfileFromUsername(target)
    ensures forall c | c in reply.calls :: c.BanUserUntil? ==>
      profile.Ok? && c == BanUserUntil(profile.value.userId, BAN_REASON, BAN_EXPIRY)
    ensures reply.response.Ok? <==>
      requester.Ok? && requester.value.administrator && profile.Ok? && banAnswer.Ok?
    ensures reply.response.Ok? ==> reply.response.value == "Banned user: " + target
    ensures requester.Ok? && requester.value.administrator ==>
      reply.calls == [GetUserProfileFromUsername(target)] +
        (if profile.Ok? then [BanUserUntil(profile.value.userId, BAN_REASON, BAN_EXPIRY)] else [])
    ensures requester.Ok? && requester.value.administrator && profile.Err? ==>
      reply.response == Err(FromDatabaseError(profile.error))
    ensures requester.Ok? && requester.value.administrator && profile.Ok? && banAnswer.Err? ==>
      reply.response == Err(FromDatabaseError(banAnswer.error))
  {
    match requester
    case Err(e) => Reply(Err(e), [])
    case Ok(user) =>
      if !user.administrator then
        Reply(Err(Unauthorized), [])
      else
        var calls := [GetUserProfileFromUsername(target)];
        match profile
        case Err(e) => Reply(Err(FromDatabaseError(e)), calls)
        case Ok(userProfile) =>
          var calls := calls + [BanUserUntil(userProfile.userId, BAN_REASON, BAN_EXPIRY)];
          match banAnswer
          case Err(e) => Reply(Err(FromDatabaseError(e)), calls)
          case Ok(_) => Reply(Ok("Banned user: " + target), calls)
  }
}
