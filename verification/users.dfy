/** The users table behind `UserRepository`: rows keyed by their serial id. */
module Users {
  import opened Errors

  datatype User = User(
    id: int,
    firstname: string,
    lastname: string,
    username: string,
    email: string,
    password: string,   // the encoded password, never the raw one
    bio: string,
    location: string,
    company: string)

  /** The table, and the next id its serial column will hand out. */
  datatype UserStore = UserStore(users: map<int, User>, nextId: int)

  /** Every row sits under its own id, and ids are below the serial counter. */
  predicate Valid(s: UserStore) {
    && 0 <= s.nextId
    && forall k :: k in s.users ==> 0 <= k < s.nextId && s.users[k].id == k
  }

  /** No two rows share an email, and no two share a username. */
  predicate UniqueLogins(s: UserStore) {
    forall j, k :: j in s.users && k in s.users && j != k ==>
      s.users[j].email != s.users[k].email && s.users[j].username != s.users[k].username
  }

  /** `existsUserWithEmail` */
  predicate EmailTaken(s: UserStore, email: string) {
    exists k :: k in s.users && s.users[k].email == email
  }

  /** `existsUserWithUsername` */
  predicate UsernameTaken(s: UserStore, username: string) {
    exists k :: k in s.users && s.users[k].username == username
  }

  /** The lowest id in `[from, bound)` whose row has the given email. */
  function FindIdByEmail(users: map<int, User>, email: string, from: int, bound: int): (r: Option<int>)
    decreases bound - from
    ensures r.Some? ==> from <= r.value < bound && r.value in users && users[r.value].email == email
    ensures r.None? ==> forall k :: from <= k < bound && k in users ==> users[k].email != email
  {
    if from >= bound then None
    else if from in users && users[from].email == email then Some(from)
    else FindIdByEmail(users, email, from + 1, bound)
  }

  /** `findUserByEmail`: the row with that email, if any. */
  function FindUserByEmail(s: UserStore, email: string): (r: Option<User>)
    ensures r.Some? ==> r.value in s.users.Values && r.value.email == email
    ensures Valid(s) ==> (r.Some? <==> EmailTaken(s, email))
    ensures Valid(s) && UniqueLogins(s) && r.Some? ==>
      forall k :: k in s.users && s.users[k].email == email ==> k == r.value.id
  {
    match FindIdByEmail(s.users, email, 0, s.nextId)
    case None => None
    case Some(id) => Some(s.users[id])
  }

  /** `updatePassword(userId, hashedPassword)`: an `UPDATE ... WHERE id = ?`,
      which touches no row when the id is unknown. */
  function UpdatePasswordRow(s: UserStore, userId: int, encoded: string): (r: UserStore)
    ensures r.nextId == s.nextId && r.users.Keys == s.users.Keys
    ensures forall k :: k in s.users && k != userId ==> r.users[k] == s.users[k]
    ensures userId in s.users ==> r.users[userId] == s.users[userId].(password := encoded)
  {
    if userId in s.users then s.(users := s.users[userId := s.users[userId].(password := encoded)])
    else s
  }
}
