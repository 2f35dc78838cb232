/** `UserService`: registration and the three account updates, as transitions
    of the users table. */
module UserService {
  import opened Errors
  import opened Text
  import opened Users
  import opened UserValidation

  const EmailInUse := "Email already in use"
  const UsernameExists := "The provided username already exists"
  const WrongPassword := "Invalid password"
  const OldPasswordIncorrect := "Old password is incorrect"

  /** `PasswordEncoder` (BCrypt), which is not part of this model:
      `matches(raw, encoded)` and `encode(raw)`. */
  datatype PasswordEncoder = PasswordEncoder(encode: string -> string, matches: (string, string) -> bool)

  /*
   * Registration
   */

  /** `registerUser`: the email is checked before the username, a duplicate
      of either leaves the table as it was, otherwise exactly one row is
      inserted under the next serial id, which is returned. */
  function RegisterUser(s: UserStore, user: User): (r: Effect<UserStore, int>)
    ensures EmailTaken(s, user.email) ==> r == Effect(s, Err(DuplicateResource("Email already in use")))
    ensures !EmailTaken(s, user.email) && UsernameTaken(s, user.username) ==>
      r == Effect(s, Err(DuplicateResource("The provided username already exists")))
    ensures r.result.Ok? <==> !EmailTaken(s, user.email) && !UsernameTaken(s, user.username)
    ensures r.result.Ok? ==>
      var id := r.result.value;
      && r.state.users == s.users[id := user.(id := id)]
      && (Valid(s) ==> id !in s.users && |r.state.users| == |s.users| + 1)
    ensures Valid(s) ==> Valid(r.state)
  {
    if EmailTaken(s, user.email) then Effect(s, Err(DuplicateResource(EmailInUse)))
    else if UsernameTaken(s, user.username) then Effect(s, Err(DuplicateResource(UsernameExists)))
    else
      var id := s.nextId;
      Effect(UserStore(s.users[id := user.(id := id)], s.nextId + 1), Ok(id))
  }

  /** Registration keeps emails and usernames unique. */
  lemma RegisterPreservesUniqueLogins(s: UserStore, user: User)
    requires Valid(s) && UniqueLogins(s)
    ensures UniqueLogins(RegisterUser(s, user).state)
  {
  }

  /*
   * Profile update
   */

  /** The profile fields, and the order `updateProfile` processes them in. */
  datatype ProfileField = Firstname | Lastname | Username | Bio | Location | Company

  const ProfileFieldOrder: seq<ProfileField> := [Firstname, Lastname, Username, Bio, Location, Company]

  /** Where a field sits in `ProfileFieldOrder`. */
  function Position(f: ProfileField): (i: nat)
    ensures i < |ProfileFieldOrder| && ProfileFieldOrder[i] == f
  {
    match f
    case Firstname => 0
    case Lastname => 1
    case Username => 2
    case Bio => 3
    case Location => 4
    case Company => 5
  }

  /** Every field is processed, each exactly once. */
  lemma ProfileFieldOrderIsComplete()
    ensures forall f :: f in ProfileFieldOrder
    ensures forall i, j :: 0 <= i < j < |ProfileFieldOrder| ==> ProfileFieldOrder[i] != ProfileFieldOrder[j]
  {
    forall f ensures f in ProfileFieldOrder {
      assert ProfileFieldOrder[Position(f)] == f;
    }
    forall i | 0 <= i < |ProfileFieldOrder| ensures Position(ProfileFieldOrder[i]) == i {
    }
  }

  /** A request whose fields may each be null. */
  datatype ProfileUpdateRequest = ProfileUpdateRequest(
    firstname: Option<string>,
    lastname: Option<string>,
    username: Option<string>,
    bio: Option<string>,
    location: Option<string>,
    company: Option<string>)

  function Requested(req: ProfileUpdateRequest, f: ProfileField): Option<string> {
    match f
    case Firstname => req.firstname
    case Lastname => req.lastname
    case Username => req.username
    case Bio => req.bio
    case Location => req.location
    case Company => req.company
  }

  /** A field is acted on only when it is non-null and not blank. */
  predicate Supplied(req: ProfileUpdateRequest, f: ProfileField) {
    Requested(req, f).Some? && !IsBlank(Requested(req, f).value)
  }

  function FieldOf(u: User, f: ProfileField): string {
    match f
    case Firstname => u.firstname
    case Lastname => u.lastname
    case Username => u.username
    case Bio => u.bio
    case Location => u.location
    case Company => u.company
  }

  function WithField(u: User, f: ProfileField, v: string): (r: User)
    ensures FieldOf(r, f) == v
    ensures forall g :: g != f ==> FieldOf(r, g) == FieldOf(u, g)
    ensures r.id == u.id && r.email == u.email && r.password == u.password
  {
    match f
    case Firstname => u.(firstname := v)
    case Lastname => u.(lastname := v)
    case Username => u.(username := v)
    case Bio => u.(bio := v)
    case Location => u.(location := v)
    case Company => u.(company := v)
  }

  /** The validator `updateProfile` runs on a supplied field. */
  function ValidateField(f: ProfileField, v: string): Check {
    match f
    case Firstname => ValidateFirstname(v)
    case Lastname => ValidateLastname(v)
    case Username => ValidateUsername(v)
    case Bio => ValidateBio(v)
    case Location => ValidateLocation(v)
    case Company => ValidateCompany(v)
  }

  /** `updateFirstname`, `updateLastname`, ...: an `UPDATE ... WHERE id = ?`,
      which touches no row when the id is unknown. */
  function WriteField(s: UserStore, userId: int, f: ProfileField, v: string): UserStore {
    if userId in s.users then s.(users := s.users[userId := WithField(s.users[userId], f, v)]) else s
  }

  /** One `if` block of `updateProfile`: skip, throw, or write the field. */
  function ApplyField(s: UserStore, userId: int, req: ProfileUpdateRequest, f: ProfileField): Effect<UserStore, ()> {
    if !Supplied(req, f) then Effect(s, Ok(()))
    else
      var v := Requested(req, f).value;
      match ValidateField(f, v)
      case Fail(e) => Effect(s, Err(e))
      case Pass =>
        if f == Username && UsernameTaken(s, v) then Effect(s, Err(DuplicateResource(UsernameExists)))
        else Effect(WriteField(s, userId, f, v), Ok(()))
  }

  /** The `if` blocks for `fs`, in order, stopping at the first throw. */
  function ApplyFields(s: UserStore, userId: int, req: ProfileUpdateRequest, fs: seq<ProfileField>): (r: Effect<UserStore, ()>)
    ensures r.state.nextId == s.nextId && r.state.users.Keys == s.users.Keys
    ensures forall k :: k in s.users && k != userId ==> r.state.users[k] == s.users[k]
    ensures userId in s.users ==>
      var (u, u') := (s.users[userId], r.state.users[userId]);
      u'.id == u.id && u'.email == u.email && u'.password == u.password
    decreases |fs|
  {
    if fs == [] then Effect(s, Ok(()))
    else
      var step := ApplyField(s, userId, req, fs[0]);
      if step.result.Err? then step
      else ApplyFields(step.state, userId, req, fs[1..])
  }

  /** `updateProfile`: only the row of `userId` changes, and within it only
      the six profile fields; the id, email and password stay. */
  function UpdateProfile(s: UserStore, userId: int, req: ProfileUpdateRequest): (r: Effect<UserStore, ()>)
    ensures r.state.nextId == s.nextId && r.state.users.Keys == s.users.Keys
    ensures forall k :: k in s.users && k != userId ==> r.state.users[k] == s.users[k]
    ensures userId in s.users ==>
      var (u, u') := (s.users[userId], r.state.users[userId]);
      u'.id == u.id && u'.email == u.email && u'.password == u.password
    ensures userId !in s.users ==> r.state == s
  {
    ApplyFields(s, userId, req, ProfileFieldOrder)
  }

  /** The value a field holds once its `if` block has run without throwing. */
  function Expected(u: User, req: ProfileUpdateRequest, f: ProfileField): string {
    if Supplied(req, f) then Requested(req, f).value else FieldOf(u, f)
  }

  lemma {:induction false} ApplyFieldsSuccess(s: UserStore, userId: int, req: ProfileUpdateRequest, fs: seq<ProfileField>)
    requires userId in s.users
    requires ApplyFields(s, userId, req, fs).result.Ok?
    ensures var (u, u') := (s.users[userId], ApplyFields(s, userId, req, fs).state.users[userId]);
      forall f :: FieldOf(u', f) == (if f in fs then Expected(u, req, f) else FieldOf(u, f))
    decreases |fs|
  {
    if fs != [] {
      var step := ApplyField(s, userId, req, fs[0]);
      ApplyFieldsSuccess(step.state, userId, req, fs[1..]);
    }
  }

  /** A profile update that does not throw leaves every field holding the
      supplied value if it was non-null and not blank, and its old value
      otherwise. */
  lemma {:induction false} UpdateProfileSuccess(s: UserStore, userId: int, req: ProfileUpdateRequest)
    requires userId in s.users
    requires UpdateProfile(s, userId, req).result.Ok?
    ensures var (u, u') := (s.users[userId], UpdateProfile(s, userId, req).state.users[userId]);
      forall f ::
        FieldOf(u', f) == (if Supplied(req, f) then Requested(req, f).value else FieldOf(u, f))
  {
    ApplyFieldsSuccess(s, userId, req, ProfileFieldOrder);
    ProfileFieldOrderIsComplete();
  }

  /** A field other than the username leaves every username where it was. */
  lemma ApplyFieldKeepsUsernames(s: UserStore, userId: int, req: ProfileUpdateRequest, f: ProfileField)
    requires f != Username
    ensures var s' := ApplyField(s, userId, req, f).state;
      s'.users.Keys == s.users.Keys && forall k :: k in s.users ==> s'.users[k].username == s.users[k].username
  {
  }

  /** What the block for `f` raises does not depend on earlier blocks: only
      the username block reads the table, and no other block writes a
      username. */
  lemma ApplyFieldResultAfterOthers(s: UserStore, s': UserStore, userId: int, req: ProfileUpdateRequest, f: ProfileField)
    requires s'.users.Keys == s.users.Keys
    requires f == Username ==> forall k :: k in s.users ==> s'.users[k].username == s.users[k].username
    ensures ApplyField(s', userId, req, f).result == ApplyField(s, userId, req, f).result
  {
    if f == Username && Supplied(req, f) {
      var v := Requested(req, f).value;
      if UsernameTaken(s, v) {
        var k :| k in s.users && s.users[k].username == v;
        assert s'.users[k].username == v;
      }
      if UsernameTaken(s', v) {
        var k :| k in s'.users && s'.users[k].username == v;
        assert s.users[k].username == v;
      }
    }
  }

  /** After a throw at position `k` of `fs`: the fields before it hold their
      new values, it and the ones after keep their old values, and fields
      outside `fs` are untouched. */
  predicate StoppedAt(u: User, u': User, req: ProfileUpdateRequest, fs: seq<ProfileField>, k: int) {
    && 0 <= k < |fs|
    && (forall j :: 0 <= j < k ==> FieldOf(u', fs[j]) == Expected(u, req, fs[j]))
    && (forall j :: k <= j < |fs| ==> FieldOf(u', fs[j]) == FieldOf(u, fs[j]))
    && (forall f :: f !in fs ==> FieldOf(u', f) == FieldOf(u, f))
  }

  /** A block that does not throw writes its own field only. */
  lemma ApplyFieldStep(s: UserStore, userId: int, req: ProfileUpdateRequest, f: ProfileField)
    requires userId in s.users
    requires ApplyField(s, userId, req, f).result.Ok?
    ensures var u1 := ApplyField(s, userId, req, f).state.users[userId];
      && FieldOf(u1, f) == Expected(s.users[userId], req, f)
      && forall g :: g != f ==> FieldOf(u1, g) == FieldOf(s.users[userId], g)
  {
  }

  lemma StoppedAtShift(u: User, u1: User, u': User, req: ProfileUpdateRequest, fs: seq<ProfileField>, k: int)
    requires |fs| > 0 && fs[0] !in fs[1..]
    requires FieldOf(u1, fs[0]) == Expected(u, req, fs[0])
    requires forall g :: g != fs[0] ==> FieldOf(u1, g) == FieldOf(u, g)
    requires StoppedAt(u1, u', req, fs[1..], k)
    ensures StoppedAt(u, u', req, fs, k + 1)
  {
    var rest := fs[1..];
    forall j | 0 <= j < k + 1 ensures FieldOf(u', fs[j]) == Expected(u, req, fs[j]) {
      if j > 0 { assert fs[j] == rest[j - 1]; }
    }
    forall j | k + 1 <= j < |fs| ensures FieldOf(u', fs[j]) == FieldOf(u, fs[j]) {
      assert fs[j] == rest[j - 1];
    }
    forall f | f !in fs ensures FieldOf(u', f) == FieldOf(u, f) {
      assert f !in rest;
    }
  }

  lemma HeadNotInTail(fs: seq<ProfileField>)
    requires |fs| > 0 && forall i, j :: 0 <= i < j < |fs| ==> fs[i] != fs[j]
    ensures fs[0] !in fs[1..]
    ensures forall i, j :: 0 <= i < j < |fs[1..]| ==> fs[1..][i] != fs[1..][j]
  {
    forall j | 0 <= j < |fs[1..]| ensures fs[1..][j] != fs[0] { assert fs[1..][j] == fs[j + 1]; }
  }

  lemma {:induction false} ApplyFieldsFailure(s: UserStore, userId: int, req: ProfileUpdateRequest, fs: seq<ProfileField>)
    requires userId in s.users
    requires forall i, j :: 0 <= i < j < |fs| ==> fs[i] != fs[j]
    requires ApplyFields(s, userId, req, fs).result.Err?
    ensures var r := ApplyFields(s, userId, req, fs);
      exists k :: StoppedAt(s.users[userId], r.state.users[userId], req, fs, k)
        && Supplied(req, fs[k]) && ApplyField(s, userId, req, fs[k]).result == r.result
    decreases |fs|
  {
    var r := ApplyFields(s, userId, req, fs);
    var step := ApplyField(s, userId, req, fs[0]);
    if step.result.Err? {
      assert StoppedAt(s.users[userId], r.state.users[userId], req, fs, 0);
    } else {
      var s1 := step.state;
      var rest := fs[1..];
      assert r == ApplyFields(s1, userId, req, rest);
      HeadNotInTail(fs);
      ApplyFieldsFailure(s1, userId, req, rest);
      var k' :| StoppedAt(s1.users[userId], r.state.users[userId], req, rest, k')
        && Supplied(req, rest[k']) && ApplyField(s1, userId, req, rest[k']).result == r.result;
      assert fs[k' + 1] == rest[k'];
      ApplyFieldStep(s, userId, req, fs[0]);
      StoppedAtShift(s.users[userId], s1.users[userId], r.state.users[userId], req, fs, k');
      if fs[0] != Username {
        ApplyFieldKeepsUsernames(s, userId, req, fs[0]);
      }
      ApplyFieldResultAfterOthers(s, s1, userId, req, fs[k' + 1]);
      assert StoppedAt(s.users[userId], r.state.users[userId], req, fs, k' + 1)
        && Supplied(req, fs[k' + 1]) && ApplyField(s, userId, req, fs[k' + 1]).result == r.result;
    }
  }

  /** `updateProfile` is not atomic: when a field's block throws, the fields
      before it (in the order firstname, lastname, username, bio, location,
      company) already hold their new values, that field and the ones after
      it keep their old values, and the exception is the one that field's
      validation or username check raises. */
  lemma {:induction false} UpdateProfileFailure(s: UserStore, userId: int, req: ProfileUpdateRequest)
    requires userId in s.users
    requires UpdateProfile(s, userId, req).result.Err?
    ensures var r := UpdateProfile(s, userId, req);
      exists k :: StoppedAt(s.users[userId], r.state.users[userId], req, ProfileFieldOrder, k)
        && Supplied(req, ProfileFieldOrder[k]) && ApplyField(s, userId, req, ProfileFieldOrder[k]).result == r.result
  {
    ProfileFieldOrderIsComplete();
    ApplyFieldsFailure(s, userId, req, ProfileFieldOrder);
  }

  /** The writes before a throw stay: a valid new first name is stored even
      though the username asked for in the same request belongs to someone,
      and the call throws the duplicate-username exception. */
  lemma UpdateProfileIsNotAtomic(s: UserStore, userId: int, req: ProfileUpdateRequest)
    requires userId in s.users
    requires Supplied(req, Firstname) && ValidateFirstname(req.firstname.value).Pass?
    requires !Supplied(req, Lastname)
    requires Supplied(req, Username) && ValidateUsername(req.username.value).Pass?
    requires UsernameTaken(s, req.username.value)
    ensures var r := UpdateProfile(s, userId, req);
      && r.result == Err(DuplicateResource("The provided username already exists"))
      && r.state.users[userId].firstname == req.firstname.value
  {
  }

  /** `updateProfile` keeps emails and usernames unique: a username is only
      written after checking no row holds it. */
  lemma {:induction false} ApplyFieldsPreservesUniqueLogins(s: UserStore, userId: int, req: ProfileUpdateRequest, fs: seq<ProfileField>)
    requires UniqueLogins(s)
    ensures UniqueLogins(ApplyFields(s, userId, req, fs).state)
    decreases |fs|
  {
    if fs != [] {
      var step := ApplyField(s, userId, req, fs[0]);
      var s1 := step.state;
      if userId in s.users && s1 != s {
        var f := fs[0];
        var v := Requested(req, f).value;
        assert s1.users == s.users[userId := WithField(s.users[userId], f, v)];
        forall j, k | j in s1.users && k in s1.users && j != k
          ensures s1.users[j].email != s1.users[k].email
          ensures s1.users[j].username != s1.users[k].username
        {
          if f == Username {
            assert !UsernameTaken(s, v);
            if j == userId { assert s1.users[k] == s.users[k]; }
            if k == userId { assert s1.users[j] == s.users[j]; }
          }
        }
      }
      if step.result.Ok? {
        ApplyFieldsPreservesUniqueLogins(s1, userId, req, fs[1..]);
      }
    }
  }

  lemma {:induction false} UpdateProfilePreservesUniqueLogins(s: UserStore, userId: int, req: ProfileUpdateRequest)
    requires UniqueLogins(s)
    ensures UniqueLogins(UpdateProfile(s, userId, req).state)
  {
    ApplyFieldsPreservesUniqueLogins(s, userId, req, ProfileFieldOrder);
  }

  /*
   * Email and password
   */

  datatype EmailUpdateRequest = EmailUpdateRequest(email: string, password: string)

  datatype PasswordUpdateRequest = PasswordUpdateRequest(oldPassword: string, updatedPassword: string)

  /** `updateEmail` only checks and never writes: the password first, then
      whether the address is taken, then the address's format. */
  function UpdateEmail(s: UserStore, userId: int, req: EmailUpdateRequest, encoder: PasswordEncoder): (r: Effect<UserStore, ()>)
    ensures r.state == s
    ensures userId !in s.users ==> r.result == Err(UserNotFound(userId))
    ensures userId in s.users && !encoder.matches(req.password, s.users[userId].password) ==>
      r.result == Err(BadCredentials("Invalid password"))
    ensures userId in s.users && encoder.matches(req.password, s.users[userId].password) && EmailTaken(s, req.email) ==>
      r.result == Err(DuplicateResource("Email already in use"))
    ensures userId in s.users && encoder.matches(req.password, s.users[userId].password) && !EmailTaken(s, req.email)
            && ValidateEmail(req.email).Fail? ==>
      r.result == Err(ValidateEmail(req.email).error)
    ensures r.result.Ok? <==>
      userId in s.users && encoder.matches(req.password, s.users[userId].password)
      && !EmailTaken(s, req.email) && |req.email| <= 50 && '@' in req.email
  {
    if userId !in s.users then Effect(s, Err(UserNotFound(userId)))
    else if !encoder.matches(req.password, s.users[userId].password) then Effect(s, Err(BadCredentials(WrongPassword)))
    else if EmailTaken(s, req.email) then Effect(s, Err(DuplicateResource(EmailInUse)))
    else match ValidateEmail(req.email)
      case Fail(e) => Effect(s, Err(e))
      case Pass => Effect(s, Ok(()))
  }

  /** `updatePassword`: on success only the user's stored password changes,
      to the encoding of the new one; every failure leaves the table as it
      was. */
  function UpdatePassword(s: UserStore, userId: int, req: PasswordUpdateRequest, encoder: PasswordEncoder,
                          validatePassword: PasswordPolicy): (r: Effect<UserStore, ()>)
    ensures userId !in s.users ==> r == Effect(s, Err(UserNotFound(userId)))
    ensures userId in s.users && !encoder.matches(req.oldPassword, s.users[userId].password) ==>
      r == Effect(s, Err(BadCredentials("Old password is incorrect")))
    ensures r.result.Ok? <==>
      userId in s.users && encoder.matches(req.oldPassword, s.users[userId].password)
      && validatePassword(req.updatedPassword).Pass?
    ensures userId in s.users && encoder.matches(req.oldPassword, s.users[userId].password)
            && validatePassword(req.updatedPassword).Fail? ==>
      r.result == Err(validatePassword(req.updatedPassword).error)
    ensures r.result.Err? ==> r.state == s
    ensures r.result.Ok? ==>
      r.state == s.(users := s.users[userId := s.users[userId].(password := encoder.encode(req.updatedPassword))])
  {
    if userId !in s.users then Effect(s, Err(UserNotFound(userId)))
    else if !encoder.matches(req.oldPassword, s.users[userId].password) then
      Effect(s, Err(BadCredentials(OldPasswordIncorrect)))
    else match validatePassword(req.updatedPassword)
      case Fail(e) => Effect(s, Err(e))
      case Pass => Effect(UpdatePasswordRow(s, userId, encoder.encode(req.updatedPassword)), Ok(()))
  }

  /** With an encoder whose `matches` accepts the encoding of a password, a
      password change takes effect: the new password then passes the
      password checks of both `updatePassword` and `updateEmail`. */
  lemma PasswordChangeTakesEffect(s: UserStore, userId: int, req: PasswordUpdateRequest, encoder: PasswordEncoder,
                                  validatePassword: PasswordPolicy, next: string, newEmail: string)
    requires forall p :: encoder.matches(p, encoder.encode(p))
    requires UpdatePassword(s, userId, req, encoder, validatePassword).result.Ok?
    ensures var s' := UpdatePassword(s, userId, req, encoder, validatePassword).state;
      && (UpdatePassword(s', userId, PasswordUpdateRequest(req.updatedPassword, next), encoder, validatePassword).result.Ok?
          <==> validatePassword(next).Pass?)
      && (UpdateEmail(s', userId, EmailUpdateRequest(newEmail, req.updatedPassword), encoder).result.Ok?
          <==> !EmailTaken(s', newEmail) && |newEmail| <= 50 && '@' in newEmail)
  {
  }
}
