/** `PasswordResetService`: the life of a password-reset token, from its
    creation on request to its consumption by a reset. Tokens are stored
    under their hash; the raw token only ever travels in the reset email. */
module PasswordReset {
  import opened Errors
  import opened Users
  import opened UserValidation
  import opened UserService

  /** `LocalDateTime.now().plusHours(2)`, with the clock counted in seconds. */
  const TokenLifetime := 2 * 60 * 60

  const ResetRequestAccepted := "If your email address exists in our database, you will receive a password " +
    "recovery link at your email address in a few minutes."
  const EmailRequired := "The Email field is required."
  const TokenInvalid := "Reset password token is invalid"
  const TokenExpired := "The password reset link has expired. Please request a new one."

  /** A row of the reset-token table; `expiryDate` is in clock seconds. */
  datatype PasswordResetToken = PasswordResetToken(userId: int, hashedToken: string, expiryDate: int)

  /** The two messages `EmailService` is asked to send. */
  datatype Email =
    | PasswordResetLink(to: string, token: string)
    | PasswordResetConfirmation(to: string, username: string)

  /** The users table, the reset-token table keyed by hashed token, and the
      emails sent so far, oldest first. */
  datatype ResetState = ResetState(users: UserStore, tokens: map<string, PasswordResetToken>, sent: seq<Email>)

  /** `StringUtils.hashToken`, which is not part of this model. */
  type TokenHash = string -> string

  /** `validatePasswordResetRequest`: the email must be non-null and non-empty. */
  function ValidatePasswordResetRequest(email: Option<string>): (r: Check)
    ensures r.Pass? <==> email.Some? && |email.value| > 0
    ensures r.Fail? ==> r.error == BadCredentials("The Email field is required.")
  {
    if email.None? || email.value == [] then Fail(BadCredentials(EmailRequired)) else Pass
  }

  /** `createPasswordResetToken`, with `token` the freshly generated random
      token and `now` the clock. The reply is the same whether or not the
      address belongs to a user; only a known address stores a token, under
      its hash and expiring two hours from now, and sends the raw token by
      email. */
  function CreatePasswordResetToken(st: ResetState, email: Option<string>, token: string, now: int,
                                    hashToken: TokenHash): (r: Effect<ResetState, string>)
    ensures r.result == (if email.Some? && email.value != [] then Ok(ResetRequestAccepted)
                         else Err(BadCredentials("The Email field is required.")))
    ensures r.result.Err? ==> r.state == st
    ensures r.state.users == st.users
    ensures r.result.Ok? && FindUserByEmail(st.users, email.value).None? ==> r.state == st
    ensures r.result.Ok? && FindUserByEmail(st.users, email.value).Some? ==>
      var user := FindUserByEmail(st.users, email.value).value;
      && r.state.tokens == st.tokens[hashToken(token) := PasswordResetToken(user.id, hashToken(token), now + TokenLifetime)]
      && r.state.sent == st.sent + [PasswordResetLink(email.value, token)]
  {
    match ValidatePasswordResetRequest(email)
    case Fail(e) => Effect(st, Err(e))
    case Pass =>
      match FindUserByEmail(st.users, email.value)
      case None => Effect(st, Ok(ResetRequestAccepted))
      case Some(user) =>
        var hashed := hashToken(token);
        var record := PasswordResetToken(user.id, hashed, now + TokenLifetime);
        Effect(ResetState(st.users, st.tokens[hashed := record], st.sent + [PasswordResetLink(email.value, token)]),
               Ok(ResetRequestAccepted))
  }

  /** `validatePasswordResetToken`: null, empty and unknown tokens are
      invalid; a stored token is expired once its expiry is strictly before
      `now`, so a token is still good at the very instant it expires. */
  function ValidatePasswordResetToken(st: ResetState, token: Option<string>, now: int, hashToken: TokenHash): (r: Check)
    ensures r.Pass? <==>
      token.Some? && token.value != [] && hashToken(token.value) in st.tokens
      && now <= st.tokens[hashToken(token.value)].expiryDate
    ensures token.None? || token.value == [] || hashToken(token.value) !in st.tokens ==>
      r == Fail(BadCredentials("Reset password token is invalid"))
    ensures r.Fail? && token.Some? && token.value != [] && hashToken(token.value) in st.tokens ==>
      r == Fail(BadCredentials("The password reset link has expired. Please request a new one."))
  {
    if token.None? || token.value == [] then Fail(BadCredentials(TokenInvalid))
    else
      var hashed := hashToken(token.value);
      if hashed !in st.tokens then Fail(BadCredentials(TokenInvalid))
      else if st.tokens[hashed].expiryDate < now then Fail(BadCredentials(TokenExpired))
      else Pass
  }

  /** `sendConfirmationEmail`: one confirmation to the user's address, or
      nothing if the user is gone. */
  function SendConfirmationEmail(st: ResetState, userId: int): (r: ResetState)
    ensures r.users == st.users && r.tokens == st.tokens
    ensures userId in st.users.users ==>
      r.sent == st.sent + [PasswordResetConfirmation(st.users.users[userId].email, st.users.users[userId].username)]
    ensures userId !in st.users.users ==> r.sent == st.sent
  {
    if userId in st.users.users then
      var user := st.users.users[userId];
      st.(sent := st.sent + [PasswordResetConfirmation(user.email, user.username)])
    else st
  }

  /** `resetPassword`: every check (token, then new password) runs before
      any write, so a failure changes nothing; success stores the encoded
      new password for the token's user, deletes the token, and sends one
      confirmation email. */
  function ResetPassword(st: ResetState, token: Option<string>, updatedPassword: string, now: int,
                         hashToken: TokenHash, encoder: PasswordEncoder, validatePassword: PasswordPolicy)
    : (r: Effect<ResetState, ()>)
    ensures r.result.Ok? <==>
      ValidatePasswordResetToken(st, token, now, hashToken).Pass? && validatePassword(updatedPassword).Pass?
    ensures r.result.Err? ==> r.state == st
    ensures ValidatePasswordResetToken(st, token, now, hashToken).Fail? ==>
      r.result == Err(ValidatePasswordResetToken(st, token, now, hashToken).error)
    ensures ValidatePasswordResetToken(st, token, now, hashToken).Pass? && validatePassword(updatedPassword).Fail? ==>
      r.result == Err(validatePassword(updatedPassword).error)
    ensures r.result.Ok? ==>
      var hashed := hashToken(token.value);
      var userId := st.tokens[hashed].userId;
      && r.state.tokens == st.tokens - {hashed}
      && r.state.users == UpdatePasswordRow(st.users, userId, encoder.encode(updatedPassword))
      && r.state.sent == st.sent + (if userId in st.users.users
                                    then [PasswordResetConfirmation(st.users.users[userId].email, st.users.users[userId].username)]
                                    else [])
  {
    match ValidatePasswordResetToken(st, token, now, hashToken)
    case Fail(e) => Effect(st, Err(e))
    case Pass =>
      match validatePassword(updatedPassword)
      case Fail(e) => Effect(st, Err(e))
      case Pass =>
        var hashedPassword := encoder.encode(updatedPassword);
        var hashed := hashToken(token.value);
        if hashed !in st.tokens then Effect(st, Ok(()))
        else
          var record := st.tokens[hashed];
          var updated := ResetState(UpdatePasswordRow(st.users, record.userId, hashedPassword), st.tokens - {hashed}, st.sent);
          Effect(SendConfirmationEmail(updated, record.userId), Ok(()))
  }

  /** A token created at time `t` for a known address validates at every
      time up to `t` plus two hours, and at no time after. */
  lemma CreatedTokenValidUntilExpiry(st: ResetState, email: string, token: string, t: int, t': int, hashToken: TokenHash)
    requires Valid(st.users) && email != [] && EmailTaken(st.users, email)
    requires token != []
    ensures var st' := CreatePasswordResetToken(st, Some(email), token, t, hashToken).state;
      ValidatePasswordResetToken(st', Some(token), t', hashToken).Pass? <==> t' <= t + TokenLifetime
  {
  }

  /** A successful reset consumes its token: presenting it again, at any
      time, is rejected as invalid. */
  lemma ResetTokenIsSingleUse(st: ResetState, token: Option<string>, updatedPassword: string, now: int, later: int,
                              hashToken: TokenHash, encoder: PasswordEncoder, validatePassword: PasswordPolicy)
    requires ResetPassword(st, token, updatedPassword, now, hashToken, encoder, validatePassword).result.Ok?
    ensures var st' := ResetPassword(st, token, updatedPassword, now, hashToken, encoder, validatePassword).state;
      ValidatePasswordResetToken(st', token, later, hashToken) == Fail(BadCredentials("Reset password token is invalid"))
  {
  }

  /** The full round: a reset requested for a known address at time `t` and
      confirmed with the emailed token by `t` plus two hours sets that
      user's password to the encoding of the new one and sends two emails,
      the link and then the confirmation. */
  lemma RequestThenResetChangesPassword(st: ResetState, email: string, token: string, t: int, t': int,
                                        updatedPassword: string, hashToken: TokenHash, encoder: PasswordEncoder,
                                        validatePassword: PasswordPolicy)
    requires Valid(st.users) && email != [] && EmailTaken(st.users, email)
    requires token != [] && t' <= t + TokenLifetime && validatePassword(updatedPassword).Pass?
    ensures
      var user := FindUserByEmail(st.users, email).value;
      var st1 := CreatePasswordResetToken(st, Some(email), token, t, hashToken).state;
      var r := ResetPassword(st1, Some(token), updatedPassword, t', hashToken, encoder, validatePassword);
      && r.result.Ok?
      && r.state.users.users[user.id].password == encoder.encode(updatedPassword)
      && r.state.sent == st.sent + [PasswordResetLink(email, token), PasswordResetConfirmation(email, user.username)]
  {
  }
}
