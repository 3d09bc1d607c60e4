/** The sign-in handlers of the `core` generation: `login` records a pin, creates the user on
    first sign-in and mails the pin; `verify_email` checks a pin and answers with a token. */
module AuthController {
  import opened Wrappers
  import opened Text
  import opened Http
  import opened Models
  import opened Validator
  import opened Dtos
  import opened CoreError
  import opened PinService
  import opened Constants
  import UserService

  const INVALID_PIN: string := "Invalid verification pin"
  const PIN_EXPIRED: string := "Verification pin expired"
  const USER_NOT_FOUND: string := "User not found"

  datatype VerifyResponse = VerifyResponse(token: string, user: User)

  /** The pin row `verify_email` accepts: found for the email and pin, and not expired. */
  predicate PinAccepted(pins: seq<VerificationPin>, body: VerifyEmailDto, now: int) {
    var found := GetVerificationPin(pins, body.email, body.pin);
    found.Some? && !(found.value.expiresAt < now)
  }

  // ---------------------------------------------------------------------------
  // verify_email
  // ---------------------------------------------------------------------------

  /** `verify_email`: the body's rules, then the pin, then its expiry, then the user, then
      the token, each failure answering at once. `now` is the time the check reads and
      `generateToken` signs a token for a user id. The pin is only read, never removed. */
  function VerifyEmail(pins: seq<VerificationPin>, users: seq<User>, body: VerifyEmailDto, now: int,
                       isEmail: string -> bool, generateToken: string -> Result<string, string>): (r: Result<VerifyResponse, HttpError>)
    ensures r.Success? <==>
              ValidateVerifyEmail(body, isEmail).Success? && PinAccepted(pins, body, now) &&
              UserService.GetUserByEmail(users, body.email).Some? &&
              generateToken(UserService.GetUserByEmail(users, body.email).value.id).Success?
    ensures r.Success? ==>
              r.value.user in users && r.value.user.email == body.email &&
              generateToken(r.value.user.id) == Success(r.value.token)
    ensures r.Failure? ==> r.error.status == BAD_REQUEST || r.error.status == INTERNAL_SERVER_ERROR
  {
    match ValidateVerifyEmail(body, isEmail)
    case Failure(fields) => Failure(ValidationError(fields))
    case Success(_) =>
      match GetVerificationPin(pins, body.email, body.pin)
      case None => Failure(BadRequest(INVALID_PIN))
      case Some(pin) =>
        if pin.expiresAt < now then Failure(BadRequest(PIN_EXPIRED))
        else
          match UserService.GetUserByEmail(users, body.email)
          case None => Failure(BadRequest(USER_NOT_FOUND))
          case Some(user) =>
            match generateToken(user.id)
            case Failure(e) => Failure(ServerError(e))
            case Success(token) => Success(VerifyResponse(token, user))
  }

  /** The checks run in order and the first failing one answers: an invalid body before any
      lookup, then a missing pin, then an expired pin, then a missing user. */
  lemma VerifyEmailChecksInOrder(pins: seq<VerificationPin>, users: seq<User>, body: VerifyEmailDto, now: int,
                                 isEmail: string -> bool, generateToken: string -> Result<string, string>)
    ensures var r := VerifyEmail(pins, users, body, now, isEmail, generateToken);
            var v := ValidateVerifyEmail(body, isEmail);
            var pin := GetVerificationPin(pins, body.email, body.pin);
            (v.Failure? ==> r == Failure(ValidationError(v.error))) &&
            (v.Success? && pin.None? ==> r == Failure(BadRequest(INVALID_PIN))) &&
            (v.Success? && pin.Some? && pin.value.expiresAt < now ==> r == Failure(BadRequest(PIN_EXPIRED))) &&
            (v.Success? && PinAccepted(pins, body, now) && UserService.GetUserByEmail(users, body.email).None? ==>
               r == Failure(BadRequest(USER_NOT_FOUND)))
  {
  }

  /** A pin that expires exactly now is still accepted. */
  lemma ExpiringNowAccepted(pins: seq<VerificationPin>, body: VerifyEmailDto, now: int)
    requires GetVerificationPin(pins, body.email, body.pin).Some?
    requires GetVerificationPin(pins, body.email, body.pin).value.expiresAt == now
    ensures PinAccepted(pins, body, now)
  {
  }

  /** Verification does not use the pin up: a verification that succeeds succeeds again,
      with the same answer, at any earlier or equal time, and at any later time up to the
      pin's expiry. */
  lemma {:induction false} ReplayUntilExpiry(pins: seq<VerificationPin>, users: seq<User>, body: VerifyEmailDto,
                                             now: int, later: int,
                                             isEmail: string -> bool, generateToken: string -> Result<string, string>)
    requires VerifyEmail(pins, users, body, now, isEmail, generateToken).Success?
    requires later <= GetVerificationPin(pins, body.email, body.pin).value.expiresAt
    ensures VerifyEmail(pins, users, body, later, isEmail, generateToken) == VerifyEmail(pins, users, body, now, isEmail, generateToken)
  {
    assert PinAccepted(pins, body, now);
    assert PinAccepted(pins, body, later);
  }

  // ---------------------------------------------------------------------------
  // login
  // ---------------------------------------------------------------------------

  /** `login`, as a function of the two tables before it: after the body's rules, a pin row
      expiring `VERIFICATION_PIN_EXPIRATION_TIME` from now is stored, the user is found or
      created, and the pin is mailed. The two inserts run one after the other; a failed
      user insert leaves the pin row behind. `drawn` is the number `generate_pin` drew,
      `newPinId`/`newUserId` the ids the database assigns, and `sendMail` the mailer. */
  function LoginOn(pins: seq<VerificationPin>, users: seq<User>, body: LoginUserDto, isEmail: string -> bool,
                   drawn: nat, now: int, newPinId: string, newUserId: string,
                   sendMail: (string, string) -> Result<(), string>): (r: (seq<VerificationPin>, seq<User>, Result<User, HttpError>))
    ensures ValidateLogin(body, isEmail).Failure? ==>
              r == (pins, users, Failure(ValidationError(ValidateLogin(body, isEmail).error)))
    ensures ValidateLogin(body, isEmail).Success? ==>
              r.0 == pins + [VerificationPin(newPinId, body.email, Decimal(drawn), now + VERIFICATION_PIN_EXPIRATION_TIME, now)] &&
              r.1 == UserService.CreateUserIfNotExistsOn(users, body.email, body.username, body.profileImageUrl, newUserId, now).0
    ensures r.2.Success? ==>
              r.2.value in r.1 && r.2.value.email == body.email &&
              sendMail(body.email, Decimal(drawn)).Success?
    ensures r.2.Failure? && ValidateLogin(body, isEmail).Success? ==> r.2.error.status == INTERNAL_SERVER_ERROR
  {
    match ValidateLogin(body, isEmail)
    case Failure(fields) => (pins, users, Failure(ValidationError(fields)))
    case Success(_) =>
      var pin := VerificationPin(newPinId, body.email, Decimal(drawn), now + VERIFICATION_PIN_EXPIRATION_TIME, now);
      var (users', created) := UserService.CreateUserIfNotExistsOn(users, body.email, body.username, body.profileImageUrl, newUserId, now);
      match created
      case Failure(e) => (pins + [pin], users', Failure(ServerError(DbErrorText(e))))
      case Success(user) =>
        match sendMail(body.email, pin.pin)
        case Failure(e) => (pins + [pin], users', Failure(ServerError(e)))
        case Success(_) => (pins + [pin], users', Success(user))
  }

  /** `login` against the two tables. */
  method Login(pins: PinTable, users: UserService.UserTable, body: LoginUserDto, isEmail: string -> bool,
               drawn: nat, now: int, newPinId: string, newUserId: string,
               sendMail: (string, string) -> Result<(), string>) returns (r: Result<User, HttpError>)
    requires users.Valid() && !UserService.HasId(users.rows, newUserId)
    modifies pins, users
    ensures (pins.rows, users.rows, r) ==
            LoginOn(old(pins.rows), old(users.rows), body, isEmail, drawn, now, newPinId, newUserId, sendMail)
    ensures users.Valid()
  {
    var valid := ValidateLogin(body, isEmail);
    if valid.Failure? {
      return Failure(ValidationError(valid.error));
    }
    var pin := pins.CreateVerificationPin(body.email, Decimal(drawn), now + VERIFICATION_PIN_EXPIRATION_TIME, newPinId, now);
    var created := users.CreateUserIfNotExists(body.email, body.username, body.profileImageUrl, newUserId, now);
    if created.Failure? {
      return Failure(ServerError(DbErrorText(created.error)));
    }
    var mailed := sendMail(body.email, pin.pin);
    if mailed.Failure? {
      return Failure(ServerError(mailed.error));
    }
    r := Success(created.value);
  }

  /** Every pin drawn from `PIN_RANGE` is stored as seven digits. */
  lemma StoredPinHasSevenDigits(pins: seq<VerificationPin>, users: seq<User>, body: LoginUserDto, isEmail: string -> bool,
                                drawn: nat, now: int, newPinId: string, newUserId: string,
                                sendMail: (string, string) -> Result<(), string>)
    requires PIN_LOW <= drawn < PIN_HIGH
    requires ValidateLogin(body, isEmail).Success?
    ensures var after := LoginOn(pins, users, body, isEmail, drawn, now, newPinId, newUserId, sendMail).0;
            |after[|after| - 1].pin| == 7
  {
    PinHasSevenDigits(drawn);
  }

  /** A successful login can be confirmed with the mailed pin until the pin expires, and
      the confirmation names the signed-in user, provided no older row holds the same
      email and pin (the lookup returns the first matching row). */
  lemma {:induction false} LoginThenVerify(pins: seq<VerificationPin>, users: seq<User>, body: LoginUserDto,
                                           isEmail: string -> bool, drawn: nat, now: int,
                                           newPinId: string, newUserId: string,
                                           sendMail: (string, string) -> Result<(), string>,
                                           later: int, generateToken: string -> Result<string, string>)
    requires UserService.UniqueUsers(users)
    requires forall k :: 0 <= k < |pins| ==> !Matches(pins[k], body.email, Decimal(drawn))
    requires LoginOn(pins, users, body, isEmail, drawn, now, newPinId, newUserId, sendMail).2.Success?
    requires later <= now + VERIFICATION_PIN_EXPIRATION_TIME
    ensures var (pins', users', r) := LoginOn(pins, users, body, isEmail, drawn, now, newPinId, newUserId, sendMail);
            var v := VerifyEmail(pins', users', VerifyEmailDto(body.email, Decimal(drawn)), later, isEmail, generateToken);
            generateToken(r.value.id).Success? ==> v == Success(VerifyResponse(generateToken(r.value.id).value, r.value))
  {
    var (pins', users', r) := LoginOn(pins, users, body, isEmail, drawn, now, newPinId, newUserId, sendMail);
    var code := Decimal(drawn);
    var row := VerificationPin(newPinId, body.email, code, now + VERIFICATION_PIN_EXPIRATION_TIME, now);
    assert ValidateLogin(body, isEmail).Success?;
    assert pins' == pins + [row];
    assert pins'[|pins|] == row;
    assert GetVerificationPin(pins', body.email, code) == Some(row) by {
      assert Matches(pins'[|pins|], body.email, code);
      assert forall k :: 0 <= k < |pins| ==> pins'[k] == pins[k];
    }
    var dto := VerifyEmailDto(body.email, code);
    assert ValidateVerifyEmail(dto, isEmail).Success?;
    var created := UserService.CreateUserIfNotExistsOn(users, body.email, body.username, body.profileImageUrl, newUserId, now);
    assert users' == created.0;
    match UserService.GetUserByEmail(users, body.email)
    case Some(u) =>
      assert users' == users && r.value == u;
    case None =>
      assert users' == users + [r.value];
      assert users'[|users|] == r.value;
      assert forall k :: 0 <= k < |users| ==> users'[k] == users[k];
      assert UserService.GetUserByEmail(users', body.email) == Some(r.value);
  }
}
