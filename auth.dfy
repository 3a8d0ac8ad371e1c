/** `AuthService`: sign-up, account activation and login on top of `UserService`.
    Login reads the store only; the JWT it signs is represented by its payload. */
module AuthService {
  import opened Wrappers
  import opened Records
  import opened Collection
  import opened Store
  import UserService

  const AlreadyActiveMessage := "This account is already active!"
  const InactiveMessage := "Your account is not active yet!"

  /** The `{user}` object `signup` answers with. A field is `None` where the property
      read finds nothing (JavaScript `undefined`, which the JSON body leaves out). */
  datatype SignupUser = SignupUser(id: Option<Id>, firstName: Option<string>, lastName: Option<string>,
                                   email: Option<string>, role: Option<Role>)

  /** The JWT claims `login` signs: `sub`, `email`, `role`. */
  datatype Payload = Payload(sub: Id, email: string, role: Role)

  /** `LoginSuccess`: the public profile and the token, here its payload. */
  datatype LoginSuccess = LoginSuccess(user: UserService.Profile, token: Payload)

  /** The properties `signup` reads off the object `createUser` resolves to, which is
      the wrapper `{user}`: it has none of them. */
  function ReadOffWrapper(wrapper: UserService.Account): SignupUser {
    SignupUser(None, None, None, None, None)
  }

  /** The same properties read off the account inside the wrapper. */
  function ReadOffAccount(a: UserService.Account): SignupUser {
    SignupUser(Some(a.id), Some(a.firstName), Some(a.lastName), Some(a.email), Some(a.role))
  }

  /** `signup` as written: the email check, `createUser`, then the reply built from
      the wrapper object. */
  function SignupAsWritten(t: Tables, dto: UserService.SignUp, now: Timestamp): (r: (Tables, Result<SignupUser>))
    ensures r.0 == UserService.CreatedUser(t, dto, now).0
    ensures r.1.Err? <==> UserService.GetUserByEmail(t, dto.email).Some?
  {
    if UserService.GetUserByEmail(t, dto.email).Some? then (t, Err(Conflict(UserService.EmailTakenMessage)))
    else
      var (u, created) := UserService.CreatedUser(t, dto, now);
      (u, Ok(ReadOffWrapper(created.value)))
  }

  /** `signup` with the reply read off the created account. */
  function Signup(t: Tables, dto: UserService.SignUp, now: Timestamp): (r: (Tables, Result<SignupUser>))
    ensures r.0 == UserService.CreatedUser(t, dto, now).0
    ensures r.1.Err? <==> UserService.GetUserByEmail(t, dto.email).Some?
    ensures r.1.Err? ==> r == (t, Err(Conflict(UserService.EmailTakenMessage)))
  {
    if UserService.GetUserByEmail(t, dto.email).Some? then (t, Err(Conflict(UserService.EmailTakenMessage)))
    else
      var (u, created) := UserService.CreatedUser(t, dto, now);
      (u, Ok(ReadOffAccount(created.value)))
  }

  /** The update `activateAccount` sends: `{isActive: true, activatedAt: now}`. */
  function Activation(now: Timestamp): UserService.UserPatch {
    UserService.UserPatch(None, None, None, Some(true), Some(now))
  }

  function Activated(t: Tables, email: string, now: Timestamp): (r: (Tables, Result<()>))
    ensures UserService.GetUserByEmail(t, email).None? ==> r == (t, Err(NotFound(UserService.NotFoundMessage)))
    ensures UserService.GetUserByEmail(t, email).Some? && UserService.GetUserByEmail(t, email).value.isActive ==>
      r == (t, Err(BadRequest(AlreadyActiveMessage)))
    ensures r.1.Ok? <==> UserService.GetUserByEmail(t, email).Some? && !UserService.GetUserByEmail(t, email).value.isActive
  {
    match UserService.GetUserByEmail(t, email)
    case None => (t, Err(NotFound(UserService.NotFoundMessage)))
    case Some(u) =>
      if u.isActive then (t, Err(BadRequest(AlreadyActiveMessage)))
      else (UserService.UpdatedById(t, u.id, Activation(now)).0, Ok(()))
  }

  /** `login(email, password)`: unknown email, then an inactive account, then a wrong
      password, each checked before the next. */
  function Login(t: Tables, email: string, password: string): (r: Result<LoginSuccess>)
    ensures UserService.GetUserByEmail(t, email).None? ==> r == Err(NotFound(UserService.NotFoundMessage))
    ensures UserService.GetUserByEmail(t, email).Some? ==>
      var u := UserService.GetUserByEmail(t, email).value;
      && (!u.isActive ==> r == Err(BadRequest(InactiveMessage)))
      && (u.isActive && u.password != Hashed(password) ==> r == Err(BadRequest(UserService.WrongPasswordMessage)))
      && (u.isActive && u.password == Hashed(password) ==>
            r == Ok(LoginSuccess(UserService.ProfileOf(u), Payload(u.id, u.email, u.role))))
  {
    match UserService.GetUserByEmail(t, email)
    case None => Err(NotFound(UserService.NotFoundMessage))
    case Some(u) =>
      if !u.isActive then Err(BadRequest(InactiveMessage))
      else if u.password != Hashed(password) then Err(BadRequest(UserService.WrongPasswordMessage))
      else Ok(LoginSuccess(UserService.ProfileOf(u), Payload(u.id, u.email, u.role)))
  }

  // ---------------------------------------------------------------------------
  // The service

  /** `signup(signUpDto)`; `now` is the clock's reading `createUser` stores. */
  method SignupAccount(db: Database, dto: UserService.SignUp, now: Timestamp) returns (r: Result<SignupUser>)
    modifies db
    ensures (db.State(), r) == Signup(old(db.State()), dto, now)
    ensures db.deletedImages == old(db.deletedImages)
  {
    var existing := FindFirst(db.users, UserWithEmail(dto.email));
    if existing.Some? {
      return Err(Conflict(UserService.EmailTakenMessage));
    }
    var created := UserService.CreateUser(db, dto, now);
    r := Ok(ReadOffAccount(created.value));
  }

  /** `activateAccount({email})`. */
  method ActivateAccount(db: Database, email: string, now: Timestamp) returns (r: Result<()>)
    modifies db
    ensures (db.State(), r) == Activated(old(db.State()), email, now)
    ensures db.deletedImages == old(db.deletedImages)
  {
    var found := FindFirst(db.users, UserWithEmail(email));
    if found.None? {
      return Err(NotFound(UserService.NotFoundMessage));
    }
    if found.value.isActive {
      return Err(BadRequest(AlreadyActiveMessage));
    }
    var _ := UserService.UpdateUserById(db, found.value.id, Activation(now));
    r := Ok(());
  }

  // ---------------------------------------------------------------------------
  // Properties

  /** As written, a successful sign-up stores the account but answers with none of
      its fields. */
  lemma SignupLosesUser(t: Tables, dto: UserService.SignUp, now: Timestamp)
    requires Consistent(t) && UserService.GetUserByEmail(t, dto.email).None?
    ensures var r := SignupAsWritten(t, dto, now);
      && r.1 == Ok(SignupUser(None, None, None, None, None))
      && UserService.GetUserByEmail(r.0, dto.email) == Some(UserService.NewUser(t.nextId, dto, now))
  {
    UserService.CreatedIsFound(t, dto, now);
  }

  /** A successful sign-up answers with exactly the stored account's public fields. */
  lemma SignupReportsUser(t: Tables, dto: UserService.SignUp, now: Timestamp)
    requires Consistent(t)
    ensures var r := Signup(t, dto, now);
      r.1.Ok? ==>
        && UserService.GetUserByEmail(r.0, dto.email).Some?
        && var u := UserService.GetUserByEmail(r.0, dto.email).value;
           r.1.value == SignupUser(Some(u.id), Some(u.firstName), Some(u.lastName), Some(u.email), Some(u.role))
  {
    UserService.CreatedIsFound(t, dto, now);
  }

  /** Sign-up activates the account: logging in at once with the same password
      succeeds, and the token names the new account. */
  lemma SignupThenLogin(t: Tables, dto: UserService.SignUp, now: Timestamp)
    requires Consistent(t)
    ensures var r := Signup(t, dto, now);
      r.1.Ok? ==>
        && Login(r.0, dto.email, dto.password).Ok?
        && Login(r.0, dto.email, dto.password).value.token == Payload(t.nextId, dto.email, r.1.value.role.value)
  {
    UserService.CreatedIsFound(t, dto, now);
  }

  lemma SignupKeeps(t: Tables, dto: UserService.SignUp, now: Timestamp)
    requires Consistent(t)
    ensures Consistent(Signup(t, dto, now).0)
    ensures CountersExact(t) ==> CountersExact(Signup(t, dto, now).0)
  {
    UserService.CreatedKeeps(t, dto, now);
  }

  /** An activated account is found under its email, active, with nothing else changed. */
  lemma ActivatedIsFound(t: Tables, email: string, now: Timestamp)
    requires Consistent(t)
    ensures var r := Activated(t, email, now);
      r.1.Ok? ==>
        UserService.GetUserByEmail(r.0, email)
        == Some(UserService.GetUserByEmail(t, email).value.(isActive := true, activatedAt := Some(now)))
  {
    var r := Activated(t, email, now);
    if r.1.Ok? {
      var u := UserService.GetUserByEmail(t, email).value;
      var q := UserWithId(u.id);
      var v := UserService.Patched(u, Activation(now));
      FindByKey(t.users, UserKey, q, u);
      FindReplaced(t.users, q, v);
      UserService.UpdatedKeeps(t, u.id, Activation(now));
      FindByKey(r.0.users, UserEmail, UserWithEmail(email), v);
    }
  }

  /** Activation is one-way: once it succeeds, a second call fails and changes nothing,
      and the account logs in with exactly its password. */
  lemma ActivationIsOneWay(t: Tables, email: string, now: Timestamp, later: Timestamp, password: string)
    requires Consistent(t)
    ensures var r := Activated(t, email, now);
      r.1.Ok? ==>
        && Activated(r.0, email, later) == (r.0, Err(BadRequest(AlreadyActiveMessage)))
        && (Login(r.0, email, password).Ok? <==> UserService.GetUserByEmail(t, email).value.password == Hashed(password))
  {
    ActivatedIsFound(t, email, now);
  }

  lemma ActivatedKeeps(t: Tables, email: string, now: Timestamp)
    requires Consistent(t)
    ensures Consistent(Activated(t, email, now).0)
    ensures CountersExact(t) ==> CountersExact(Activated(t, email, now).0)
  {
    if UserService.GetUserByEmail(t, email).Some? {
      UserService.UpdatedKeeps(t, UserService.GetUserByEmail(t, email).value.id, Activation(now));
    }
  }

  /** After a password change the new password logs in exactly when the account is
      active, and a different old one no longer does. */
  lemma PasswordChangeLogin(t: Tables, email: string, password: string, newPassword: string)
    requires Consistent(t)
    ensures var r := UserService.PasswordUpdated(t, email, password, newPassword);
      r.1.Ok? ==>
        && (Login(r.0, email, newPassword).Ok? <==> UserService.GetUserByEmail(t, email).value.isActive)
        && (password != newPassword ==> Login(r.0, email, password).Err?)
  {
    UserService.PasswordUpdatedMatches(t, email, password, newPassword);
  }
}
