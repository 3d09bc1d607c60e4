/** The legacy sign-in routes (`ctx` generation). They follow the same steps as the `core`
    handlers but answer with the older two-field error, report an invalid body by the
    validator's own text, and confirming a pin marks the user verified. */
module AuthRouter {
  import opened Wrappers
  import opened Text
  import opened Http
  import opened Models
  import opened Listing
  import opened Validator
  import opened Dtos
  import opened ModelsError
  import opened PinService
  import opened Constants
  import UserService
  import AuthController
  import CoreError

  const INVALID_PIN: string := "Invalid verification pin"
  const PIN_EXPIRED: string := "Verification pin expired"

  /** The rows the verification statement writes: the email's user marked verified. */
  function MarkVerifiedRows(users: seq<User>, email: string): seq<User> {
    UpdateWhere(users, (u: User) => u.email == email, (u: User) => u.(isVerified := true))
  }

  /** `verify_email`, as a function of the users table before it: the body's rules (their
      failure told by `describe`), the pin, its expiry, then `UPDATE users SET is_verified
      = true WHERE email = $1 RETURNING *`, whose missing row answers 500, then the token.
      The update stays even when signing the token fails. */
  function VerifyEmailOn(pins: seq<VerificationPin>, users: seq<User>, body: VerifyEmailDto, now: int,
                         isEmail: string -> bool, describe: seq<FieldFailures> -> string,
                         generateToken: string -> Result<string, string>)
    : (r: (seq<User>, Result<AuthController.VerifyResponse, HttpError>))
    ensures r.1.Success? ==>
              r.1.value.user.email == body.email && r.1.value.user.isVerified &&
              UserService.GetUserByEmail(r.0, body.email) == Some(r.1.value.user)
    ensures r.0 == users || r.0 == MarkVerifiedRows(users, body.email)
  {
    match ValidateVerifyEmail(body, isEmail)
    case Failure(fields) => (users, Failure(New(BAD_REQUEST, describe(fields))))
    case Success(_) =>
      match GetVerificationPin(pins, body.email, body.pin)
      case None => (users, Failure(New(BAD_REQUEST, INVALID_PIN)))
      case Some(pin) =>
        if pin.expiresAt < now then (users, Failure(New(BAD_REQUEST, PIN_EXPIRED)))
        else
          match UserService.GetUserByEmail(users, body.email)
          case None => (users, Failure(New(INTERNAL_SERVER_ERROR, DbErrorText(RowNotFound))))
          case Some(user) =>
            var verified := user.(isVerified := true);
            var rows := MarkVerifiedRows(users, body.email);
            MarkedUserFound(users, body.email);
            match generateToken(user.id)
            case Failure(e) => (rows, Failure(New(INTERNAL_SERVER_ERROR, e)))
            case Success(token) => (rows, Success(AuthController.VerifyResponse(token, verified)))
  }

  /** After the update, the first user with the email is the one found before, now verified. */
  lemma MarkedUserFound(users: seq<User>, email: string)
    requires UserService.GetUserByEmail(users, email).Some?
    ensures UserService.GetUserByEmail(MarkVerifiedRows(users, email), email) ==
            Some(UserService.GetUserByEmail(users, email).value.(isVerified := true))
  {
    var rows := MarkVerifiedRows(users, email);
    var i := IndexWhere(users, (u: User) => u.email == email).value;
    assert users[i] == UserService.GetUserByEmail(users, email).value;
    assert rows[i] == users[i].(isVerified := true);
    assert forall k :: 0 <= k < i ==> rows[k] == users[k];
  }

  /** `verify_email` against the users table. */
  method VerifyEmail(pins: seq<VerificationPin>, users: UserService.UserTable, body: VerifyEmailDto, now: int,
                     isEmail: string -> bool, describe: seq<FieldFailures> -> string,
                     generateToken: string -> Result<string, string>)
    returns (r: Result<AuthController.VerifyResponse, HttpError>)
    requires users.Valid()
    modifies users
    ensures (users.rows, r) == VerifyEmailOn(pins, old(users.rows), body, now, isEmail, describe, generateToken)
    ensures users.Valid()
  {
    var valid := ValidateVerifyEmail(body, isEmail);
    if valid.Failure? {
      return Failure(New(BAD_REQUEST, describe(valid.error)));
    }
    var pin := GetVerificationPin(pins, body.email, body.pin);
    if pin.None? {
      return Failure(New(BAD_REQUEST, INVALID_PIN));
    }
    if pin.value.expiresAt < now {
      return Failure(New(BAD_REQUEST, PIN_EXPIRED));
    }
    var user := users.MarkVerified(body.email);
    if user.Failure? {
      return Failure(New(INTERNAL_SERVER_ERROR, DbErrorText(user.error)));
    }
    var token := generateToken(user.value.id);
    if token.Failure? {
      return Failure(New(INTERNAL_SERVER_ERROR, token.error));
    }
    r := Success(AuthController.VerifyResponse(token.value, user.value));
  }

  /** The legacy check accepts exactly what the `core` one accepts, with the same token,
      and answers with the same user marked verified; where the `core` handler says 400
      "User not found", this one says 500. */
  lemma AgreesWithCore(pins: seq<VerificationPin>, users: seq<User>, body: VerifyEmailDto, now: int,
                       isEmail: string -> bool, describe: seq<FieldFailures> -> string,
                       generateToken: string -> Result<string, string>)
    ensures var legacy := VerifyEmailOn(pins, users, body, now, isEmail, describe, generateToken).1;
            var core := AuthController.VerifyEmail(pins, users, body, now, isEmail, generateToken);
            (legacy.Success? <==> core.Success?) &&
            (legacy.Success? ==> legacy.value == core.value.(user := core.value.user.(isVerified := true))) &&
            (legacy.Failure? && core.Failure? ==>
               (legacy.error.status == core.error.status ||
                (core.error == CoreError.BadRequest(AuthController.USER_NOT_FOUND) && legacy.error.status == INTERNAL_SERVER_ERROR)))
  {
  }

  /** `login`, as a function of the two tables before it: the same steps as the `core`
      handler, with every failure after the body's rules a 500. */
  function LoginOn(pins: seq<VerificationPin>, users: seq<User>, body: LoginUserDto, isEmail: string -> bool,
                   describe: seq<FieldFailures> -> string,
                   drawn: nat, now: int, newPinId: string, newUserId: string,
                   sendMail: (string, string) -> Result<(), string>): (r: (seq<VerificationPin>, seq<User>, Result<User, HttpError>))
    ensures ValidateLogin(body, isEmail).Failure? ==>
              r == (pins, users, Failure(New(BAD_REQUEST, describe(ValidateLogin(body, isEmail).error))))
    ensures r.2.Failure? && ValidateLogin(body, isEmail).Success? ==> r.2.error.status == INTERNAL_SERVER_ERROR
  {
    match ValidateLogin(body, isEmail)
    case Failure(fields) => (pins, users, Failure(New(BAD_REQUEST, describe(fields))))
    case Success(_) =>
      var pin := VerificationPin(newPinId, body.email, Decimal(drawn), now + VERIFICATION_PIN_EXPIRATION_TIME, now);
      var (users', created) := UserService.CreateUserIfNotExistsOn(users, body.email, body.username, body.profileImageUrl, newUserId, now);
      match created
      case Failure(e) => (pins + [pin], users', Failure(New(INTERNAL_SERVER_ERROR, DbErrorText(e))))
      case Success(user) =>
        match sendMail(body.email, pin.pin)
        case Failure(e) => (pins + [pin], users', Failure(New(INTERNAL_SERVER_ERROR, e)))
        case Success(_) => (pins + [pin], users', Success(user))
  }

  /** `login` against the two tables. */
  method Login(pins: PinTable, users: UserService.UserTable, body: LoginUserDto, isEmail: string -> bool,
               describe: seq<FieldFailures> -> string,
               drawn: nat, now: int, newPinId: string, newUserId: string,
               sendMail: (string, string) -> Result<(), string>) returns (r: Result<User, HttpError>)
    requires users.Valid() && !UserService.HasId(users.rows, newUserId)
    modifies pins, users
    ensures (pins.rows, users.rows, r) ==
            LoginOn(old(pins.rows), old(users.rows), body, isEmail, describe, drawn, now, newPinId, newUserId, sendMail)
    ensures users.Valid()
  {
    var valid := ValidateLogin(body, isEmail);
    if valid.Failure? {
      return Failure(New(BAD_REQUEST, describe(valid.error)));
    }
    var pin := pins.CreateVerificationPin(body.email, Decimal(drawn), now + VERIFICATION_PIN_EXPIRATION_TIME, newPinId, now);
    var created := users.CreateUserIfNotExists(body.email, body.username, body.profileImageUrl, newUserId, now);
    if created.Failure? {
      return Failure(New(INTERNAL_SERVER_ERROR, DbErrorText(created.error)));
    }
    var mailed := sendMail(body.email, pin.pin);
    if mailed.Failure? {
      return Failure(New(INTERNAL_SERVER_ERROR, mailed.error));
    }
    r := Success(created.value);
  }

  /** Both generations of `login` write the same rows and sign in the same user; they
      differ only in the error value. */
  lemma LoginAgreesWithCore(pins: seq<VerificationPin>, users: seq<User>, body: LoginUserDto, isEmail: string -> bool,
                            describe: seq<FieldFailures> -> string,
                            drawn: nat, now: int, newPinId: string, newUserId: string,
                            sendMail: (string, string) -> Result<(), string>)
    ensures var legacy := LoginOn(pins, users, body, isEmail, describe, drawn, now, newPinId, newUserId, sendMail);
            var core := AuthController.LoginOn(pins, users, body, isEmail, drawn, now, newPinId, newUserId, sendMail);
            legacy.0 == core.0 && legacy.1 == core.1 &&
            (legacy.2.Success? <==> core.2.Success?) &&
            (legacy.2.Success? ==> legacy.2.value == core.2.value) &&
            (legacy.2.Failure? ==> legacy.2.error.status == core.2.error.status)
  {
  }
}
