/**
 * UserService: registration, lookup by email or id, and credential checks. The
 * password encoder is a parameter: `encode` hashes a raw password and `matches`
 * compares a raw password with a stored hash.
 */
module UserService {
  import opened Wrappers
  import opened Entities

  datatype UserError =
    | EmailAlreadyRegistered   // RuntimeException "Email already registered"
    | UserNotFound             // UserNotFoundException

  /** The fields of UserRegistrationDTO that registration reads. */
  datatype Registration = Registration(fullName: string, email: string, password: string)

  /** findByEmail(email).isPresent(): some stored user has the email. */
  predicate EmailRegistered(users: map<UserId, User>, email: string) {
    exists id :: id in users && users[id].email == email
  }

  /**
   * findByEmailOrNull: the user with the email, or None. The repository query
   * returns a single optional row, so emails are unique among the stored users.
   */
  function FindByEmailOrNull(users: map<UserId, User>, email: string): (found: Option<User>)
    requires EmailsUnique(users)
    ensures found.Some? <==> EmailRegistered(users, email)
    ensures found.Some? ==> found.value.email == email && exists id :: id in users && users[id] == found.value
  {
    if EmailRegistered(users, email) then
      var id :| id in users && users[id].email == email;
      Some(users[id])
    else None
  }

  /** findByEmail: as findByEmailOrNull, but an absent email is an error. */
  function FindByEmail(users: map<UserId, User>, email: string): (r: Result<User, UserError>)
    requires EmailsUnique(users)
    ensures r.Ok? <==> EmailRegistered(users, email)
    ensures r.Ok? ==> r.value.email == email && exists id :: id in users && users[id] == r.value
    ensures r.Err? ==> r.error == UserNotFound
  {
    match FindByEmailOrNull(users, email)
    case None => Err(UserNotFound)
    case Some(u) => Ok(u)
  }

  /** existsByEmail. */
  function ExistsByEmail(users: map<UserId, User>, email: string): (found: bool)
    ensures found <==> exists id :: id in users && users[id].email == email
  {
    EmailRegistered(users, email)
  }

  /** findById. */
  function FindById(users: map<UserId, User>, id: UserId): (r: Result<User, UserError>)
    ensures r.Ok? <==> id in users
    ensures r.Ok? ==> r.value == users[id]
    ensures r.Err? ==> r.error == UserNotFound
  {
    if id in users then Ok(users[id]) else Err(UserNotFound)
  }

  /**
   * validateCredentials: false when no user has the email, otherwise whether the
   * password matches the stored hash.
   */
  function ValidateCredentials(users: map<UserId, User>, email: string, password: string,
                               matches: (string, string) -> bool): (ok: bool)
    requires EmailsUnique(users)
    ensures !EmailRegistered(users, email) ==> !ok
    ensures ok <==> exists id :: id in users && users[id].email == email && matches(password, users[id].password)
  {
    match FindByEmailOrNull(users, email)
    case None => false
    case Some(user) => matches(password, user.password)
  }

  /**
   * registerUser(dto, role): a taken email is an error; otherwise a new user with
   * the DTO's name as both full name and username, the encoded password, the role
   * and a zero balance is saved under the next identity.
   */
  function RegisterUser(s: Store, reg: Registration, role: Role, encode: string -> string): (r: Result<(Store, User), UserError>)
    ensures r.Ok? <==> !EmailRegistered(s.users, reg.email)
    ensures r.Err? ==> r.error == EmailAlreadyRegistered
    ensures r.Ok? ==>
              var (t, user) := r.value;
              && user.id == s.nextUserId
              && user.fullName == reg.fullName && user.username == reg.fullName && user.email == reg.email
              && user.password == encode(reg.password) && user.role == role && user.accountBalance == 0.0
              && t.users == s.users[user.id := user] && t.nextUserId == s.nextUserId + 1
              && t.rooms == s.rooms && t.bookings == s.bookings
  {
    if EmailRegistered(s.users, reg.email) then Err(EmailAlreadyRegistered)
    else
      var user := User(s.nextUserId, reg.fullName, reg.email, reg.fullName, encode(reg.password), role, 0.0);
      Ok((s.(users := s.users[user.id := user], nextUserId := s.nextUserId + 1), user))
  }

  /** registerUser(dto): registration with the CUSTOMER role. */
  function RegisterCustomer(s: Store, reg: Registration, encode: string -> string): (r: Result<(Store, User), UserError>)
    ensures r.Ok? <==> !EmailRegistered(s.users, reg.email)
    ensures r.Ok? ==> r.value.1.role == Customer && r.value.1.email == reg.email && r.value.1.accountBalance == 0.0
  {
    RegisterUser(s, reg, Customer, encode)
  }

  // ---------------------------------------------------------------------------
  // Properties

  /** Registration keeps emails unique among the stored users. */
  lemma RegisterKeepsEmailsUnique(s: Store, reg: Registration, role: Role, encode: string -> string)
    requires EmailsUnique(s.users)
    requires RegisterUser(s, reg, role, encode).Ok?
    ensures EmailsUnique(RegisterUser(s, reg, role, encode).value.0.users)
  {
    var (t, user) := RegisterUser(s, reg, role, encode).value;
    forall i, j | i in t.users && j in t.users && t.users[i].email == t.users[j].email
      ensures i == j
    {
      if i != j && (i == user.id || j == user.id) {
        assert false;
      }
    }
  }

  /** Registration keeps the store well formed, and the new user has an id never used before. */
  lemma RegisterKeepsWellFormed(s: Store, reg: Registration, role: Role, encode: string -> string)
    requires WellFormed(s)
    requires RegisterUser(s, reg, role, encode).Ok?
    ensures WellFormed(RegisterUser(s, reg, role, encode).value.0)
    ensures RegisterUser(s, reg, role, encode).value.1.id !in s.users
  {
  }

  /** Both overloads register the same user; the short one uses the CUSTOMER role. */
  lemma RegisterCustomerIsCustomerRole(s: Store, reg: Registration, encode: string -> string)
    ensures RegisterCustomer(s, reg, encode) == RegisterUser(s, reg, Customer, encode)
  {
  }

  /** A registered user is found by email and by id, and signs in with the password given. */
  lemma RegisteredUserIsFound(s: Store, reg: Registration, role: Role, encode: string -> string, matches: (string, string) -> bool)
    requires EmailsUnique(s.users)
    requires RegisterUser(s, reg, role, encode).Ok?
    ensures var (t, user) := RegisterUser(s, reg, role, encode).value;
            && EmailsUnique(t.users)
            && FindByEmail(t.users, reg.email) == Ok(user)
            && FindById(t.users, user.id) == Ok(user)
            && ExistsByEmail(t.users, reg.email)
            && (ValidateCredentials(t.users, reg.email, reg.password, matches) <==> matches(reg.password, encode(reg.password)))
  {
    var (t, user) := RegisterUser(s, reg, role, encode).value;
    RegisterKeepsEmailsUnique(s, reg, role, encode);
    assert t.users[user.id].email == reg.email;
    var found := FindByEmailOrNull(t.users, reg.email);
    assert found.Some?;
    var id :| id in t.users && t.users[id] == found.value;
    assert id == user.id;
  }

  /** A second registration with the same email fails and stores nothing. */
  lemma SecondRegistrationFails(s: Store, reg: Registration, other: Registration, role: Role, role2: Role, encode: string -> string)
    requires RegisterUser(s, reg, role, encode).Ok?
    requires other.email == reg.email
    ensures RegisterUser(RegisterUser(s, reg, role, encode).value.0, other, role2, encode) == Err(EmailAlreadyRegistered)
  {
    var (t, user) := RegisterUser(s, reg, role, encode).value;
    assert t.users[user.id].email == other.email;
  }

  /** existsByEmail holds exactly when findByEmailOrNull finds someone, and when findByEmail succeeds. */
  lemma ExistsByEmailIffFound(users: map<UserId, User>, email: string)
    requires EmailsUnique(users)
    ensures ExistsByEmail(users, email) <==> FindByEmailOrNull(users, email).Some?
    ensures ExistsByEmail(users, email) <==> FindByEmail(users, email).Ok?
  {
  }
}
