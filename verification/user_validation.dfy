/** The field validators of `UserService`: each one returns normally or
    throws `BadCredentialsException` with a field-specific message. */
module UserValidation {
  import opened Errors
  import opened Text
  import opened Users

  const NameMaxLength := 30
  const UsernameMaxLength := 30
  const EmailMaxLength := 50
  const BioMaxLength := 150
  const LocationMaxLength := 50
  const CompanyMaxLength := 50

  /** `PasswordValidation.validatePassword`, which is not part of this model:
      any validation whose failure is propagated unchanged. */
  type PasswordPolicy = string -> Check

  /** The messages of the `BadCredentialsException`s the validators throw. */
  const FirstnameTooLong := "Invalid firstname. Too many characters"
  const FirstnameNotLetters := "Invalid firstname. Name should contain only characters"
  const LastnameTooLong := "Invalid lastname. Too many characters"
  const LastnameNotLetters := "Invalid lastname. Name should contain only characters"
  const UsernameTooLong := "Invalid username. Too many characters"
  const EmailTooLong := "Invalid email. Too many characters"
  const EmailMalformed := "Invalid email"
  const BioTooLong := "Invalid bio. Too many characters"
  const LocationTooLong := "Invalid location. Too many characters"
  const CompanyTooLong := "Invalid company. Too many characters"

  /** A name made of at most 30 ASCII letters; the empty name qualifies. */
  predicate NameOk(s: string) {
    |s| <= NameMaxLength && forall i :: 0 <= i < |s| ==> IsAsciiLetter(s[i])
  }

  predicate EmailOk(s: string) {
    |s| <= EmailMaxLength && '@' in s
  }

  /** The shared shape of `validateFirstname` and `validateLastname`: the
      length test first, then the pattern `^[a-zA-Z]*$`. */
  function ValidateName(name: string, tooLong: string, notLetters: string): (r: Check)
    ensures r.Pass? <==> NameOk(name)
    ensures |name| > NameMaxLength ==> r == Fail(BadCredentials(tooLong))
    ensures |name| <= NameMaxLength && !NameOk(name) ==> r == Fail(BadCredentials(notLetters))
  {
    if |name| > NameMaxLength then Fail(BadCredentials(tooLong))
    else if !MatchesLetters(name) then Fail(BadCredentials(notLetters))
    else Pass
  }

  /** The shared shape of the length-only validators. */
  function ValidateMaxLength(s: string, max: nat, tooLong: string): (r: Check)
    ensures r.Pass? <==> |s| <= max
    ensures r.Fail? ==> r == Fail(BadCredentials(tooLong))
  {
    if |s| > max then Fail(BadCredentials(tooLong)) else Pass
  }

  function ValidateFirstname(firstname: string): (r: Check)
    ensures r.Pass? <==> |firstname| <= 30 && forall i :: 0 <= i < |firstname| ==> IsAsciiLetter(firstname[i])
    ensures |firstname| > 30 ==> r == Fail(BadCredentials("Invalid firstname. Too many characters"))
    ensures |firstname| <= 30 && r.Fail? ==>
      r == Fail(BadCredentials("Invalid firstname. Name should contain only characters"))
  {
    ValidateName(firstname, FirstnameTooLong, FirstnameNotLetters)
  }

  function ValidateLastname(lastname: string): (r: Check)
    ensures r.Pass? <==> |lastname| <= 30 && forall i :: 0 <= i < |lastname| ==> IsAsciiLetter(lastname[i])
    ensures |lastname| > 30 ==> r == Fail(BadCredentials("Invalid lastname. Too many characters"))
    ensures |lastname| <= 30 && r.Fail? ==>
      r == Fail(BadCredentials("Invalid lastname. Name should contain only characters"))
  {
    ValidateName(lastname, LastnameTooLong, LastnameNotLetters)
  }

  function ValidateUsername(username: string): (r: Check)
    ensures r.Pass? <==> |username| <= 30
    ensures r.Fail? ==> r == Fail(BadCredentials("Invalid username. Too many characters"))
  {
    ValidateMaxLength(username, UsernameMaxLength, UsernameTooLong)
  }

  /** The length test comes first, so a long address without `@` is
      reported as too long. */
  function ValidateEmail(email: string): (r: Check)
    ensures r.Pass? <==> |email| <= 50 && exists i :: 0 <= i < |email| && email[i] == '@'
    ensures |email| > 50 ==> r == Fail(BadCredentials("Invalid email. Too many characters"))
    ensures |email| <= 50 && r.Fail? ==> r == Fail(BadCredentials("Invalid email"))
  {
    if |email| > EmailMaxLength then Fail(BadCredentials(EmailTooLong))
    else if '@' !in email then Fail(BadCredentials(EmailMalformed))
    else Pass
  }

  function ValidateBio(bio: string): (r: Check)
    ensures r.Pass? <==> |bio| <= 150
    ensures r.Fail? ==> r == Fail(BadCredentials("Invalid bio. Too many characters"))
  {
    ValidateMaxLength(bio, BioMaxLength, BioTooLong)
  }

  function ValidateLocation(location: string): (r: Check)
    ensures r.Pass? <==> |location| <= 50
    ensures r.Fail? ==> r == Fail(BadCredentials("Invalid location. Too many characters"))
  {
    ValidateMaxLength(location, LocationMaxLength, LocationTooLong)
  }

  function ValidateCompany(company: string): (r: Check)
    ensures r.Pass? <==> |company| <= 50
    ensures r.Fail? ==> r == Fail(BadCredentials("Invalid company. Too many characters"))
  {
    ValidateMaxLength(company, CompanyMaxLength, CompanyTooLong)
  }

  /** The validations `validateUser` runs, in the order it runs them. */
  function UserChecks(u: User, validatePassword: PasswordPolicy): seq<Check> {
    [ ValidateFirstname(u.firstname),
      ValidateLastname(u.lastname),
      ValidateUsername(u.username),
      ValidateEmail(u.email),
      validatePassword(u.password),
      ValidateBio(u.bio),
      ValidateLocation(u.location),
      ValidateCompany(u.company) ]
  }

  /** `validateUser`: passes iff every field passes; otherwise the error is
      that of the first failing field in the order above. */
  function ValidateUser(u: User, validatePassword: PasswordPolicy): (r: Check)
    ensures r.Pass? <==>
      && NameOk(u.firstname) && NameOk(u.lastname)
      && |u.username| <= UsernameMaxLength && EmailOk(u.email)
      && validatePassword(u.password).Pass?
      && |u.bio| <= BioMaxLength && |u.location| <= LocationMaxLength && |u.company| <= CompanyMaxLength
    ensures r.Fail? ==>
      var checks := UserChecks(u, validatePassword);
      exists k :: 0 <= k < |checks| && checks[k] == r && forall j :: 0 <= j < k ==> checks[j].Pass?
  {
    var checks := UserChecks(u, validatePassword);
    assert (forall i :: 0 <= i < |checks| ==> checks[i].Pass?) <==>
      checks[0].Pass? && checks[1].Pass? && checks[2].Pass? && checks[3].Pass? &&
      checks[4].Pass? && checks[5].Pass? && checks[6].Pass? && checks[7].Pass?;
    FirstFailure(checks)
  }
}
