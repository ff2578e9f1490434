/** The user service: registration with uniqueness checks, login, partial profile update, soft delete,
    activation and deactivation, password change and search. The users table is a sequence in the
    repository's `findAll` order; the events sent to the user-events topic are a sequence too. The
    password encoder and the token generator are parameters.
    The `User` entity class is not part of this model; its fields are taken from the builder calls and
    the response mapping of the service, except the creation and update timestamps, which are not
    modelled. `fullName` is treated as nullable.
 */
module UserService {
  import opened Wrappers
  import opened Text
  import opened Transactions

  datatype User = User(
    id: Uuid,
    username: string,
    email: string,
    fullName: Option<string>,
    passwordHash: string,
    phone: Option<string>,
    dateOfBirth: Option<LocalDate>,
    isActive: bool)

  /** The response DTO: every modelled field of the user except the password hash. */
  datatype UserResponse = UserResponse(
    id: Uuid,
    username: string,
    email: string,
    fullName: Option<string>,
    phone: Option<string>,
    dateOfBirth: Option<LocalDate>,
    isActive: bool)

  function ResponseOf(u: User): UserResponse
  {
    UserResponse(u.id, u.username, u.email, u.fullName, u.phone, u.dateOfBirth, u.isActive)
  }

  /** A message of the user-events topic, keyed by the user id. Its timestamp is not modelled. */
  datatype UserEvent = UserEvent(eventType: string, key: Uuid, username: string, email: string,
                                 fullName: Option<string>, isActive: bool)

  function EventOf(u: User, eventType: string): UserEvent
  {
    UserEvent(eventType, u.id, u.username, u.email, u.fullName, u.isActive)
  }

  /** The users table and the user-events topic. */
  datatype Accounts = Accounts(users: seq<User>, events: seq<UserEvent>)

  /** The state after an operation, and what it returned or threw. */
  datatype Outcome<T> = Outcome(accounts: Accounts, result: Result<T, string>)

  /** The password encoder: `encode` hashes, `matches(raw, hash)` checks. */
  datatype PasswordEncoder = PasswordEncoder(encode: string -> string, matches: (string, string) -> bool)

  /** An encoder accepts the password it encoded. */
  ghost predicate Sound(enc: PasswordEncoder)
  {
    forall p :: enc.matches(p, enc.encode(p))
  }

  /** Ids, emails and usernames are unique across the table. */
  predicate WellFormed(users: seq<User>)
  {
    forall i, j :: 0 <= i < j < |users| ==>
      users[i].id != users[j].id && users[i].email != users[j].email && users[i].username != users[j].username
  }

  // ---------------------------------------------------------------- lookups

  /** The first position whose user satisfies `p`. */
  function IndexWhere(users: seq<User>, p: User -> bool): (r: Option<nat>)
    ensures r.None? <==> forall j :: 0 <= j < |users| ==> !p(users[j])
    ensures r.Some? ==> r.value < |users| && p(users[r.value])
    ensures r.Some? ==> forall j :: 0 <= j < r.value ==> !p(users[j])
  {
    if users == [] then None
    else if p(users[0]) then Some(0)
    else
      match IndexWhere(users[1..], p)
      case None => None
      case Some(k) => Some(k + 1)
  }

  function IndexOfId(users: seq<User>, id: Uuid): Option<nat>
  {
    IndexWhere(users, (u: User) => u.id == id)
  }

  function IndexOfEmail(users: seq<User>, email: string): Option<nat>
  {
    IndexWhere(users, (u: User) => u.email == email)
  }

  function IndexOfUsername(users: seq<User>, username: string): Option<nat>
  {
    IndexWhere(users, (u: User) => u.username == username)
  }

  /** In a well-formed table the user with a given id is found at its position. */
  lemma IndexOfIdFinds(users: seq<User>, i: nat)
    requires WellFormed(users) && i < |users|
    ensures IndexOfId(users, users[i].id) == Some(i)
  {
  }

  /** In a well-formed table the user with a given email is found at its position. */
  lemma IndexOfEmailFinds(users: seq<User>, i: nat)
    requires WellFormed(users) && i < |users|
    ensures IndexOfEmail(users, users[i].email) == Some(i)
  {
  }

  // ---------------------------------------------------------------- registration

  datatype Registration = Registration(username: string, email: string, fullName: Option<string>, password: string,
                                       phone: Option<string>, dateOfBirth: Option<LocalDate>)

  /** `createUser`: the email is checked first, then the username; a new user is active and stored with
      the encoded password, and USER_CREATED is sent after the save. `freshId` is the generated id. */
  function CreateUser(a: Accounts, req: Registration, freshId: Uuid, enc: PasswordEncoder): (o: Outcome<UserResponse>)
    ensures IndexOfEmail(a.users, req.email).Some? ==>
              o == Outcome(a, Failure("User with email '" + req.email + "' already exists"))
    ensures IndexOfEmail(a.users, req.email).None? && IndexOfUsername(a.users, req.username).Some? ==>
              o == Outcome(a, Failure("User with username '" + req.username + "' already exists"))
    ensures o.result.Success? <==>
              IndexOfEmail(a.users, req.email).None? && IndexOfUsername(a.users, req.username).None?
    ensures o.result.Success? ==> |o.accounts.users| == |a.users| + 1
    ensures o.result.Success? ==>
              var u := o.accounts.users[|a.users|];
              && o.accounts.users == a.users + [u]
              && u == User(freshId, req.username, req.email, req.fullName, enc.encode(req.password),
                           req.phone, req.dateOfBirth, true)
              && o.accounts.events == a.events + [EventOf(u, "USER_CREATED")]
              && o.result.value == ResponseOf(u)
  {
    if IndexOfEmail(a.users, req.email).Some? then
      Outcome(a, Failure("User with email '" + req.email + "' already exists"))
    else if IndexOfUsername(a.users, req.username).Some? then
      Outcome(a, Failure("User with username '" + req.username + "' already exists"))
    else
      var u := User(freshId, req.username, req.email, req.fullName, enc.encode(req.password),
                    req.phone, req.dateOfBirth, true);
      Outcome(Accounts(a.users + [u], a.events + [EventOf(u, "USER_CREATED")]), Success(ResponseOf(u)))
  }

  /** Registration keeps ids, emails and usernames unique. */
  lemma CreateUserKeepsWellFormed(a: Accounts, req: Registration, freshId: Uuid, enc: PasswordEncoder)
    requires WellFormed(a.users)
    requires forall i :: 0 <= i < |a.users| ==> a.users[i].id != freshId
    ensures WellFormed(CreateUser(a, req, freshId, enc).accounts.users)
  {
  }

  // ---------------------------------------------------------------- login

  datatype LoginResponse = LoginResponse(token: string, tokenType: string, userId: Uuid, username: string, email: string)

  const BadCredentials := "Invalid email or password"

  /** `login`: an unknown email and a wrong password get the same message; the deactivation message is
      given only to a caller who knows the password. `token` stands for the token generator. */
  function Login(users: seq<User>, email: string, password: string, enc: PasswordEncoder,
                 token: (Uuid, string, string) -> string): (r: Result<LoginResponse, string>)
    ensures IndexOfEmail(users, email).None? ==> r == Failure(BadCredentials)
    ensures r.Success? ==>
              var u := users[IndexOfEmail(users, email).value];
              && enc.matches(password, u.passwordHash) && u.isActive
              && r.value == LoginResponse(token(u.id, u.username, u.email), "Bearer", u.id, u.username, u.email)
    ensures r == Failure("Account is deactivated") ==>
              enc.matches(password, users[IndexOfEmail(users, email).value].passwordHash)
    ensures IndexOfEmail(users, email).Some? ==>
              var u := users[IndexOfEmail(users, email).value];
              && (enc.matches(password, u.passwordHash) && u.isActive ==> r.Success?)
              && (enc.matches(password, u.passwordHash) && !u.isActive ==> r == Failure("Account is deactivated"))
              && (!enc.matches(password, u.passwordHash) ==> r == Failure(BadCredentials))
  {
    match IndexOfEmail(users, email)
    case None => Failure(BadCredentials)
    case Some(i) =>
      var u := users[i];
      if !enc.matches(password, u.passwordHash) then Failure(BadCredentials)
      else if !u.isActive then Failure("Account is deactivated")
      else Success(LoginResponse(token(u.id, u.username, u.email), "Bearer", u.id, u.username, u.email))
  }

  /** A wrong password for a known email fails exactly as an unknown email does, active or not. */
  lemma WrongPasswordLooksLikeUnknownEmail(users: seq<User>, email: string, password: string, enc: PasswordEncoder,
                                           token: (Uuid, string, string) -> string)
    requires IndexOfEmail(users, email).Some?
    requires !enc.matches(password, users[IndexOfEmail(users, email).value].passwordHash)
    ensures Login(users, email, password, enc, token) == Failure(BadCredentials)
  {
  }

  /** A user who just registered can log in with the password they registered with. */
  lemma RegisteredUserCanLogIn(a: Accounts, req: Registration, freshId: Uuid, enc: PasswordEncoder,
                               token: (Uuid, string, string) -> string)
    requires Sound(enc)
    requires CreateUser(a, req, freshId, enc).result.Success?
    ensures var users := CreateUser(a, req, freshId, enc).accounts.users;
            Login(users, req.email, req.password, enc, token).Success?
            && Login(users, req.email, req.password, enc, token).value.userId == freshId
  {
    var users := CreateUser(a, req, freshId, enc).accounts.users;
    var u := users[|a.users|];
    assert users[..|a.users|] == a.users;
    assert IndexOfEmail(users, req.email) == Some(|a.users|) by {
      var p := (x: User) => x.email == req.email;
      assert forall j :: 0 <= j < |a.users| ==> !p(a.users[j]);
      assert forall j :: 0 <= j < |a.users| ==> users[j] == a.users[j];
    }
    assert enc.matches(req.password, enc.encode(req.password));
  }

  // ---------------------------------------------------------------- profile update

  datatype UserUpdate = UserUpdate(fullName: Option<string>, phone: Option<string>, dateOfBirth: Option<LocalDate>)

  const NotFound := "User not found"

  /** The user with the non-null fields of the request written over its own. */
  function Patched(u: User, req: UserUpdate): (v: User)
    ensures v.fullName == if req.fullName.Some? then req.fullName else u.fullName
    ensures v.phone == if req.phone.Some? then req.phone else u.phone
    ensures v.dateOfBirth == if req.dateOfBirth.Some? then req.dateOfBirth else u.dateOfBirth
    ensures v.id == u.id && v.username == u.username && v.email == u.email
    ensures v.passwordHash == u.passwordHash && v.isActive == u.isActive
  {
    u.(fullName := if req.fullName.Some? then req.fullName else u.fullName,
       phone := if req.phone.Some? then req.phone else u.phone,
       dateOfBirth := if req.dateOfBirth.Some? then req.dateOfBirth else u.dateOfBirth)
  }

  /** Applying the same update twice is applying it once; an update with no field set changes nothing. */
  lemma PatchedIdempotent(u: User, req: UserUpdate)
    ensures Patched(Patched(u, req), req) == Patched(u, req)
    ensures Patched(u, UserUpdate(None, None, None)) == u
  {
  }

  /** `updateUser`: an unknown id throws "User not found"; otherwise the user is patched in place and
      USER_UPDATED is sent. */
  function UpdateUser(a: Accounts, id: Uuid, req: UserUpdate): (o: Outcome<UserResponse>)
    ensures IndexOfId(a.users, id).None? ==> o == Outcome(a, Failure(NotFound))
    ensures IndexOfId(a.users, id).Some? ==>
              var i := IndexOfId(a.users, id).value;
              var v := Patched(a.users[i], req);
              && o.accounts.users == a.users[i := v]
              && o.accounts.events == a.events + [EventOf(v, "USER_UPDATED")]
              && o.result == Success(ResponseOf(v))
  {
    match IndexOfId(a.users, id)
    case None => Outcome(a, Failure(NotFound))
    case Some(i) =>
      var v := Patched(a.users[i], req);
      Outcome(Accounts(a.users[i := v], a.events + [EventOf(v, "USER_UPDATED")]), Success(ResponseOf(v)))
  }

  // ---------------------------------------------------------------- soft delete, activation

  /** Sets the active flag of the user with the given id and sends `eventType`; shared by `deleteUser`,
      `deactivateUser` and `activateUser`. The record itself is never removed. */
  function SetActive(a: Accounts, id: Uuid, active: bool, eventType: string): (o: Outcome<()>)
    ensures IndexOfId(a.users, id).None? ==> o == Outcome(a, Failure(NotFound))
    ensures IndexOfId(a.users, id).Some? ==>
              var i := IndexOfId(a.users, id).value;
              && o.result.Success?
              && |o.accounts.users| == |a.users|
              && o.accounts.users[i] == a.users[i].(isActive := active)
              && (forall j :: 0 <= j < |a.users| && j != i ==> o.accounts.users[j] == a.users[j])
              && o.accounts.events == a.events + [EventOf(a.users[i].(isActive := active), eventType)]
  {
    match IndexOfId(a.users, id)
    case None => Outcome(a, Failure(NotFound))
    case Some(i) =>
      var v := a.users[i].(isActive := active);
      Outcome(Accounts(a.users[i := v], a.events + [EventOf(v, eventType)]), Success(()))
  }

  /** `deleteUser`: a soft delete: an unknown id throws "User not found" and changes nothing; otherwise the user stays in
      place with its flag cleared, every other user is untouched, and USER_DELETED is sent. */
  function DeleteUser(a: Accounts, id: Uuid): (o: Outcome<()>)
    ensures IndexOfId(a.users, id).None? ==> o == Outcome(a, Failure(NotFound))
    ensures IndexOfId(a.users, id).Some? ==>
              var i := IndexOfId(a.users, id).value;
              && o.result.Success? && |o.accounts.users| == |a.users|
              && o.accounts.users[i].id == id && o.accounts.users[i].isActive == false
              && (forall j :: 0 <= j < |a.users| && j != i ==> o.accounts.users[j] == a.users[j])
              && o.accounts.events == a.events + [EventOf(o.accounts.users[i], "USER_DELETED")]
  {
    SetActive(a, id, false, "USER_DELETED")
  }

  /** `deactivateUser`: an unknown id throws "User not found" and changes nothing; otherwise the user stays in
      place with its flag cleared, every other user is untouched, and USER_DEACTIVATED is sent. */
  function DeactivateUser(a: Accounts, id: Uuid): (o: Outcome<()>)
    ensures IndexOfId(a.users, id).None? ==> o == Outcome(a, Failure(NotFound))
    ensures IndexOfId(a.users, id).Some? ==>
              var i := IndexOfId(a.users, id).value;
              && o.result.Success? && |o.accounts.users| == |a.users|
              && o.accounts.users[i].id == id && o.accounts.users[i].isActive == false
              && (forall j :: 0 <= j < |a.users| && j != i ==> o.accounts.users[j] == a.users[j])
              && o.accounts.events == a.events + [EventOf(o.accounts.users[i], "USER_DEACTIVATED")]
  {
    SetActive(a, id, false, "USER_DEACTIVATED")
  }

  /** `activateUser`: an unknown id throws "User not found" and changes nothing; otherwise the user stays in
      place with its flag set, every other user is untouched, and USER_ACTIVATED is sent. */
  function ActivateUser(a: Accounts, id: Uuid): (o: Outcome<()>)
    ensures IndexOfId(a.users, id).None? ==> o == Outcome(a, Failure(NotFound))
    ensures IndexOfId(a.users, id).Some? ==>
              var i := IndexOfId(a.users, id).value;
              && o.result.Success? && |o.accounts.users| == |a.users|
              && o.accounts.users[i].id == id && o.accounts.users[i].isActive == true
              && (forall j :: 0 <= j < |a.users| && j != i ==> o.accounts.users[j] == a.users[j])
              && o.accounts.events == a.events + [EventOf(o.accounts.users[i], "USER_ACTIVATED")]
  {
    SetActive(a, id, true, "USER_ACTIVATED")
  }

  /** Deleting is a soft delete: the user is still there, with the same id, now inactive, and cannot log
      in any more. */
  lemma DeleteIsSoft(a: Accounts, id: Uuid, email: string, password: string, enc: PasswordEncoder,
                     token: (Uuid, string, string) -> string)
    requires IndexOfId(a.users, id).Some? && WellFormed(a.users)
    ensures var users := DeleteUser(a, id).accounts.users;
            && IndexOfId(users, id).Some?
            && !users[IndexOfId(users, id).value].isActive
            && (users[IndexOfId(users, id).value].email == email ==> Login(users, email, password, enc, token).Failure?)
  {
    var i := IndexOfId(a.users, id).value;
    var users := DeleteUser(a, id).accounts.users;
    assert WellFormed(users);
    IndexOfIdFinds(users, i);
    IndexOfEmailFinds(users, i);
  }

  /** Setting the flag keeps the user at the position where the lookup by id finds it. */
  lemma SetActiveKeepsIndex(a: Accounts, id: Uuid, active: bool, eventType: string)
    requires IndexOfId(a.users, id).Some?
    ensures IndexOfId(SetActive(a, id, active, eventType).accounts.users, id) == IndexOfId(a.users, id)
  {
    var i := IndexOfId(a.users, id).value;
    var b := SetActive(a, id, active, eventType).accounts.users;
    var p := (u: User) => u.id == id;
    assert forall j :: 0 <= j < |b| ==> p(b[j]) == p(a.users[j]);
    assert IndexWhere(b, p) == Some(i);
  }

  /** Setting the flag twice leaves the table as setting it once; activating restores a deactivated
      user that was active before. */
  lemma ActivationIdempotent(a: Accounts, id: Uuid)
    requires IndexOfId(a.users, id).Some?
    ensures DeactivateUser(DeactivateUser(a, id).accounts, id).accounts.users == DeactivateUser(a, id).accounts.users
    ensures ActivateUser(ActivateUser(a, id).accounts, id).accounts.users == ActivateUser(a, id).accounts.users
    ensures a.users[IndexOfId(a.users, id).value].isActive ==>
              ActivateUser(DeactivateUser(a, id).accounts, id).accounts.users == a.users
  {
    SetActiveKeepsIndex(a, id, false, "USER_DEACTIVATED");
    SetActiveKeepsIndex(a, id, true, "USER_ACTIVATED");
  }

  // ---------------------------------------------------------------- password change

  /** `changePassword`: an unknown id or a wrong current password throws and changes nothing; otherwise
      the new password is encoded and stored, and PASSWORD_CHANGED is sent. */
  function ChangePassword(a: Accounts, id: Uuid, current: string, newPassword: string, enc: PasswordEncoder): (o: Outcome<()>)
    ensures IndexOfId(a.users, id).None? ==> o == Outcome(a, Failure(NotFound))
    ensures IndexOfId(a.users, id).Some? && !enc.matches(current, a.users[IndexOfId(a.users, id).value].passwordHash) ==>
              o == Outcome(a, Failure("Current password is incorrect"))
    ensures o.result.Success? ==>
              var i := IndexOfId(a.users, id).value;
              && enc.matches(current, a.users[i].passwordHash)
              && o.accounts.users == a.users[i := a.users[i].(passwordHash := enc.encode(newPassword))]
              && o.accounts.events == a.events + [EventOf(o.accounts.users[i], "PASSWORD_CHANGED")]
  {
    match IndexOfId(a.users, id)
    case None => Outcome(a, Failure(NotFound))
    case Some(i) =>
      var u := a.users[i];
      if !enc.matches(current, u.passwordHash) then Outcome(a, Failure("Current password is incorrect"))
      else
        var v := u.(passwordHash := enc.encode(newPassword));
        Outcome(Accounts(a.users[i := v], a.events + [EventOf(v, "PASSWORD_CHANGED")]), Success(()))
  }

  /** After a password change an active user logs in with the new password. */
  lemma NewPasswordLogsIn(a: Accounts, id: Uuid, current: string, newPassword: string, enc: PasswordEncoder,
                          token: (Uuid, string, string) -> string)
    requires Sound(enc) && WellFormed(a.users)
    requires ChangePassword(a, id, current, newPassword, enc).result.Success?
    requires a.users[IndexOfId(a.users, id).value].isActive
    ensures var users := ChangePassword(a, id, current, newPassword, enc).accounts.users;
            Login(users, a.users[IndexOfId(a.users, id).value].email, newPassword, enc, token).Success?
  {
    var i := IndexOfId(a.users, id).value;
    var users := ChangePassword(a, id, current, newPassword, enc).accounts.users;
    assert WellFormed(users);
    IndexOfEmailFinds(users, i);
    assert enc.matches(newPassword, enc.encode(newPassword));
  }

  // ---------------------------------------------------------------- search

  /** The lower-cased query occurs at some position of the lower-cased username, full name or email. */
  ghost predicate QueryOccurs(u: User, query: string)
  {
    var q := ToLower(query);
    || (exists i :: OccursAt(ToLower(u.username), q, i))
    || (u.fullName.Some? && exists i :: OccursAt(ToLower(u.fullName.value), q, i))
    || (exists i :: OccursAt(ToLower(u.email), q, i))
  }

  /** The filter of `searchUsers`: the lower-cased query in the lower-cased username, full name or email. */
  predicate Matches(u: User, query: string)
    ensures Matches(u, query) ==> QueryOccurs(u, query)
    ensures QueryOccurs(u, query) ==> Matches(u, query)
  {
    var q := ToLower(query);
    ContainsIff(ToLower(u.username), q);
    ContainsIff(ToLower(u.email), q);
    Contains(ToLower(u.username), q)
    || (u.fullName.Some? && (ContainsIff(ToLower(u.fullName.value), q); Contains(ToLower(u.fullName.value), q)))
    || Contains(ToLower(u.email), q)
  }

  /** The filter dereferences the full name only when the username does not match; a null full name
      then throws NullPointerException. */
  predicate Throws(u: User, query: string)
    ensures Throws(u, query) ==> u.fullName.None? && !exists i :: OccursAt(ToLower(u.username), ToLower(query), i)
    ensures u.fullName.None? && !(exists i :: OccursAt(ToLower(u.username), ToLower(query), i)) ==> Throws(u, query)
  {
    ContainsIff(ToLower(u.username), ToLower(query));
    !Contains(ToLower(u.username), ToLower(query)) && u.fullName.None?
  }

  /** `searchUsers` over the users in `findAll` order. */
  function SearchUsers(users: seq<User>, query: string): (r: Result<seq<UserResponse>, string>)
    ensures r.Failure? <==> exists i :: 0 <= i < |users| && Throws(users[i], query)
    ensures r.Success? ==> |r.value| <= |users|
  {
    if users == [] then Success([])
    else
      var last := users[|users| - 1];
      match SearchUsers(users[..|users| - 1], query)
      case Failure(e) => Failure(e)
      case Success(found) =>
        if Throws(last, query) then Failure("NullPointerException")
        else if Matches(last, query) then Success(found + [ResponseOf(last)])
        else Success(found)
  }

  /** Search returns exactly the matching users: every matching user is in the result and everything in
      the result is a matching user. */
  lemma {:induction false} SearchFindsExactlyMatches(users: seq<User>, query: string)
    requires SearchUsers(users, query).Success?
    ensures forall i :: 0 <= i < |users| && Matches(users[i], query) ==> ResponseOf(users[i]) in SearchUsers(users, query).value
    ensures forall x :: x in SearchUsers(users, query).value ==> exists i :: 0 <= i < |users| && Matches(users[i], query) && x == ResponseOf(users[i])
    decreases |users|
  {
    if users != [] {
      var init := users[..|users| - 1];
      SearchFindsExactlyMatches(init, query);
      forall i | 0 <= i < |init|
        ensures init[i] == users[i]
      {
      }
    }
  }

  /** Search keeps repository order: searching a concatenation concatenates the results. */
  lemma {:induction false} SearchKeepsOrder(a: seq<User>, b: seq<User>, query: string)
    requires SearchUsers(a + b, query).Success?
    ensures SearchUsers(a, query).Success? && SearchUsers(b, query).Success?
    ensures SearchUsers(a + b, query).value == SearchUsers(a, query).value + SearchUsers(b, query).value
    decreases |b|
  {
    if b == [] {
      assert a + b == a;
    } else {
      assert (a + b)[..|a + b| - 1] == a + b[..|b| - 1];
      SearchKeepsOrder(a, b[..|b| - 1], query);
    }
  }

  /** The case of the query does not matter. */
  lemma SearchIgnoresQueryCase(users: seq<User>, query: string)
    ensures SearchUsers(users, query) == SearchUsers(users, ToLower(query))
  {
    ToLowerIdempotent(query);
  }
}
