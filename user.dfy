/** `UserService`: accounts, their public projections and their passwords. Emails
    are unique in the store; a stored password is the hash of the plain text it was
    last set to (the pre-save hook). */
module UserService {
  import opened Wrappers
  import opened Records
  import opened Collection
  import opened Pagination
  import opened Store

  const NotFoundMessage := "User not found"
  const EmailTakenMessage := "Email already exists"
  const WrongPasswordMessage := "Invalid password"

  /** `SignUpDto`; a missing role takes the schema default, USER. */
  datatype SignUp = SignUp(firstName: string, lastName: string, email: string, password: string, role: Option<Role>)

  /** The `{user}` object of `createUser`. */
  datatype Account = Account(id: Id, firstName: string, lastName: string, email: string, role: Role)

  /** The `{user}` object of `getUserById`, `updateUser` and `login`. */
  datatype Profile = Profile(id: Id, firstName: string, lastName: string, email: string, role: Role, profile: Option<Url>)

  /** A `getUsers` row: the stored user under the projection `-password -activatedAt`. */
  datatype Listed = Listed(id: Id, firstName: string, lastName: string, email: string, role: Role,
                           profile: Option<Url>, isActive: bool)

  /** The fields an `UpdateQuery<User>` from the callers may set. */
  datatype UserPatch = UserPatch(firstName: Option<string>, lastName: Option<string>, profile: Option<Url>,
                                 isActive: Option<bool>, activatedAt: Option<Timestamp>)

  function AccountOf(u: User): Account {
    Account(u.id, u.firstName, u.lastName, u.email, u.role)
  }

  function ProfileOf(u: User): Profile {
    Profile(u.id, u.firstName, u.lastName, u.email, u.role, u.profile)
  }

  function ListedOf(u: User): Listed {
    Listed(u.id, u.firstName, u.lastName, u.email, u.role, u.profile, u.isActive)
  }

  /** An update sets the fields it names and leaves the key, the email, the role and
      the password alone. */
  function Patched(u: User, patch: UserPatch): (r: User)
    ensures r.id == u.id && r.email == u.email && r.role == u.role && r.password == u.password
    ensures patch == UserPatch(None, None, None, None, None) ==> r == u
  {
    u.(firstName := if patch.firstName.Some? then patch.firstName.value else u.firstName,
       lastName := if patch.lastName.Some? then patch.lastName.value else u.lastName,
       profile := if patch.profile.Some? then patch.profile else u.profile,
       isActive := if patch.isActive.Some? then patch.isActive.value else u.isActive,
       activatedAt := if patch.activatedAt.Some? then patch.activatedAt else u.activatedAt)
  }

  /** `createUser` stores the DTO already active, activated `now`, with the password hashed. */
  function NewUser(id: Id, dto: SignUp, now: Timestamp): User {
    User(id, dto.firstName, dto.lastName, dto.email, Hashed(dto.password),
         if dto.role.Some? then dto.role.value else UserRole, None, true, Some(now))
  }

  // ---------------------------------------------------------------------------
  // Reads

  /** `getUserByEmail(email)`: `findOne({email})`. */
  function GetUserByEmail(t: Tables, email: string): (r: Option<User>)
    ensures r.Some? ==> r.value in t.users && r.value.email == email
    ensures r.None? <==> forall u :: u in t.users ==> u.email != email
  {
    FindFirst(t.users, UserWithEmail(email))
  }

  /** `getUserById(userId)`: the public profile, never the password. */
  function GetUserById(t: Tables, id: Id): (r: Result<Profile>)
    ensures r.Ok? ==> exists u :: u in t.users && u.id == id && r.value == ProfileOf(u)
    ensures r.Err? <==> forall u :: u in t.users ==> u.id != id
    ensures r.Err? ==> r.error == NotFound(NotFoundMessage)
  {
    var u :- FindOr(t.users, UserWithId(id), NotFoundMessage);
    Ok(ProfileOf(u))
  }

  /** The `projection` option applied to each document of a page. */
  function ListedAll(users: seq<User>): (listed: seq<Listed>)
    ensures |listed| == |users|
    ensures forall i :: 0 <= i < |users| ==> listed[i] == ListedOf(users[i])
  {
    seq(|users|, i requires 0 <= i < |users| => ListedOf(users[i]))
  }

  /** Each listed entry is the projection of a USER-role account. */
  lemma ListedAreUsers(t: Tables, results: seq<User>, listed: seq<Listed>)
    requires forall x :: x in results ==> x in Where(t.users, UserWithRole(UserRole))
    requires |listed| == |results| && forall i :: 0 <= i < |listed| ==> listed[i] == ListedOf(results[i])
    ensures forall x :: x in listed ==> exists u :: u in t.users && u.role == UserRole && x == ListedOf(u)
  {
    forall x | x in listed
      ensures exists u :: u in t.users && u.role == UserRole && x == ListedOf(u)
    {
      var i :| 0 <= i < |listed| && listed[i] == x;
      assert results[i] in Where(t.users, UserWithRole(UserRole));
    }
  }

  /** `getUsers(page, limit)`: a `paginate` page of the USER-role accounts, newest
      first, each projected without its password and activation time. */
  function GetUsers(t: Tables, page: Option<int>, limit: Option<int>): (r: Page<Listed>)
    ensures forall x :: x in r.results ==> exists u :: u in t.users && u.role == UserRole && x == ListedOf(u)
    ensures r.pagination.totalResults == Count(t.users, UserWithRole(UserRole))
    ensures |r.results| <= r.pagination.limit == LimitOf(limit)
  {
    var p := Paginate(Where(t.users, UserWithRole(UserRole)), Options(page, limit, None));
    var listed := ListedAll(p.results);
    ListedAreUsers(t, p.results, listed);
    Page(listed, p.pagination)
  }

  // ---------------------------------------------------------------------------
  // What each change leaves behind

  function CreatedUser(t: Tables, dto: SignUp, now: Timestamp): (r: (Tables, Result<Account>))
    ensures r.1.Err? <==> GetUserByEmail(t, dto.email).Some?
    ensures r.1.Err? ==> r == (t, Err(Conflict(EmailTakenMessage)))
    ensures r.1.Ok? ==>
      && r.0 == t.(users := t.users + [NewUser(t.nextId, dto, now)], nextId := t.nextId + 1)
      && r.1.value == AccountOf(NewUser(t.nextId, dto, now))
  {
    if GetUserByEmail(t, dto.email).Some? then (t, Err(Conflict(EmailTakenMessage)))
    else
      var u := NewUser(t.nextId, dto, now);
      (t.(users := t.users + [u], nextId := t.nextId + 1), Ok(AccountOf(u)))
  }

  /** `updateUserById(userId, update)`: `findByIdAndUpdate` with `{new: true}`, giving
      the updated user or nothing. */
  function UpdatedById(t: Tables, id: Id, patch: UserPatch): (r: (Tables, Option<User>))
    ensures r.1.None? <==> forall u :: u in t.users ==> u.id != id
    ensures r.1.None? ==> r.0 == t
    ensures r.1.Some? ==> r.1.value == Patched(FindFirst(t.users, UserWithId(id)).value, patch)
    ensures r.0 == t.(users := r.0.users)
  {
    match FindFirst(t.users, UserWithId(id))
    case None => (t, None)
    case Some(u) =>
      var v := Patched(u, patch);
      (t.(users := ReplaceFirst(t.users, UserWithId(id), v)), Some(v))
  }

  function UserUpdated(t: Tables, id: Id, patch: UserPatch): (r: (Tables, Result<Profile>))
    ensures r.0 == UpdatedById(t, id, patch).0
    ensures r.1.Err? <==> GetUserById(t, id).Err?
    ensures r.1.Err? ==> r.1.error == NotFound(NotFoundMessage)
  {
    match UpdatedById(t, id, patch)
    case (u, None) => (u, Err(NotFound(NotFoundMessage)))
    case (u, Some(v)) => (u, Ok(ProfileOf(v)))
  }

  /** The `user.password = ...; user.save()` step: the document saved back under its id,
      the new password hashed by the pre-save hook. */
  function WithPassword(t: Tables, u: User, password: string): (r: Tables)
    ensures r == t.(users := r.users) && |r.users| == |t.users|
    ensures FindFirst(t.users, UserWithId(u.id)).Some? ==>
      FindFirst(r.users, UserWithId(u.id)) == Some(u.(password := Hashed(password)))
  {
    var saved := u.(password := Hashed(password));
    if FindFirst(t.users, UserWithId(u.id)).Some? then
      FindReplaced(t.users, UserWithId(u.id), saved);
      t.(users := ReplaceFirst(t.users, UserWithId(u.id), saved))
    else
      t.(users := ReplaceFirst(t.users, UserWithId(u.id), saved))
  }

  function PasswordUpdated(t: Tables, email: string, password: string, newPassword: string): (r: (Tables, Result<()>))
    ensures GetUserByEmail(t, email).None? ==> r == (t, Err(NotFound(NotFoundMessage)))
    ensures GetUserByEmail(t, email).Some? && GetUserByEmail(t, email).value.password != Hashed(password) ==>
      r == (t, Err(BadRequest(WrongPasswordMessage)))
    ensures r.1.Ok? <==> GetUserByEmail(t, email).Some? && GetUserByEmail(t, email).value.password == Hashed(password)
  {
    match GetUserByEmail(t, email)
    case None => (t, Err(NotFound(NotFoundMessage)))
    case Some(u) =>
      if u.password != Hashed(password) then (t, Err(BadRequest(WrongPasswordMessage)))
      else (WithPassword(t, u, newPassword), Ok(()))
  }

  function PasswordReset(t: Tables, id: Id, newPassword: string): (r: (Tables, Result<()>))
    ensures r.1.Ok? <==> exists u :: u in t.users && u.id == id && u.role == UserRole
    ensures r.1.Err? ==> r == (t, Err(NotFound(NotFoundMessage)))
  {
    match FindFirst(t.users, UserWithIdAndRole(id, UserRole))
    case None => (t, Err(NotFound(NotFoundMessage)))
    case Some(u) => (WithPassword(t, u, newPassword), Ok(()))
  }

  // ---------------------------------------------------------------------------
  // The service

  /** `createUser(signUpDto)`; `now` is the clock's reading for `activatedAt`. */
  method CreateUser(db: Database, dto: SignUp, now: Timestamp) returns (r: Result<Account>)
    modifies db
    ensures (db.State(), r) == CreatedUser(old(db.State()), dto, now)
    ensures db.deletedImages == old(db.deletedImages)
  {
    var existing := FindFirst(db.users, UserWithEmail(dto.email));
    if existing.Some? {
      return Err(Conflict(EmailTakenMessage));
    }
    var id := db.NewId();
    var u := NewUser(id, dto, now);
    db.users := db.users + [u];
    r := Ok(AccountOf(u));
  }

  /** `updateUserById(userId, update)`. */
  method UpdateUserById(db: Database, id: Id, patch: UserPatch) returns (r: Option<User>)
    modifies db
    ensures (db.State(), r) == UpdatedById(old(db.State()), id, patch)
    ensures db.deletedImages == old(db.deletedImages)
  {
    var found := FindFirst(db.users, UserWithId(id));
    if found.None? {
      return None;
    }
    var v := Patched(found.value, patch);
    db.users := ReplaceFirst(db.users, UserWithId(id), v);
    r := Some(v);
  }

  /** `updateUser(userId, update)`. */
  method UpdateUser(db: Database, id: Id, patch: UserPatch) returns (r: Result<Profile>)
    modifies db
    ensures (db.State(), r) == UserUpdated(old(db.State()), id, patch)
    ensures db.deletedImages == old(db.deletedImages)
  {
    var updated := UpdateUserById(db, id, patch);
    if updated.None? {
      return Err(NotFound(NotFoundMessage));
    }
    r := Ok(ProfileOf(updated.value));
  }

  /** `updatePassword(email, {password, newPassword})`: `compare` is a hash match. */
  method UpdatePassword(db: Database, email: string, password: string, newPassword: string) returns (r: Result<()>)
    modifies db
    ensures (db.State(), r) == PasswordUpdated(old(db.State()), email, password, newPassword)
    ensures db.deletedImages == old(db.deletedImages)
  {
    var found := FindFirst(db.users, UserWithEmail(email));
    if found.None? {
      return Err(NotFound(NotFoundMessage));
    }
    var u := found.value;
    if u.password != Hashed(password) {
      return Err(BadRequest(WrongPasswordMessage));
    }
    db.users := ReplaceFirst(db.users, UserWithId(u.id), u.(password := Hashed(newPassword)));
    r := Ok(());
  }

  /** `resetPassword(userId, {newPassword})`: only a USER-role account may be reset. */
  method ResetPassword(db: Database, id: Id, newPassword: string) returns (r: Result<()>)
    modifies db
    ensures (db.State(), r) == PasswordReset(old(db.State()), id, newPassword)
    ensures db.deletedImages == old(db.deletedImages)
  {
    var found := FindFirst(db.users, UserWithIdAndRole(id, UserRole));
    if found.None? {
      return Err(NotFound(NotFoundMessage));
    }
    var u := found.value;
    db.users := ReplaceFirst(db.users, UserWithId(u.id), u.(password := Hashed(newPassword)));
    r := Ok(());
  }

  // ---------------------------------------------------------------------------
  // Properties

  /** A new account keeps ids and emails unique. */
  lemma CreatedKeeps(t: Tables, dto: SignUp, now: Timestamp)
    requires Consistent(t)
    ensures Consistent(CreatedUser(t, dto, now).0)
    ensures CountersExact(t) ==> CountersExact(CreatedUser(t, dto, now).0)
  {
    if GetUserByEmail(t, dto.email).None? {
      var u := NewUser(t.nextId, dto, now);
      KeyedAppend(t.users, UserKey, t.nextId, u);
      UniqueAppend(t.users, UserEmail, u);
    }
  }

  /** The new account is found at once, by email and by id, already active and with
      the password it was given. */
  lemma CreatedIsFound(t: Tables, dto: SignUp, now: Timestamp)
    requires Consistent(t)
    ensures var r := CreatedUser(t, dto, now);
      r.1.Ok? ==>
        && GetUserByEmail(r.0, dto.email) == Some(NewUser(t.nextId, dto, now))
        && GetUserById(r.0, r.1.value.id) == Ok(ProfileOf(NewUser(t.nextId, dto, now)))
        && NewUser(t.nextId, dto, now).isActive
        && NewUser(t.nextId, dto, now).password == Hashed(dto.password)
  {
    var u := NewUser(t.nextId, dto, now);
    if GetUserByEmail(t, dto.email).None? {
      FindAppended(t.users, u, UserWithEmail(dto.email));
      FindAppended(t.users, u, UserWithId(t.nextId));
    }
  }

  /** A password change writes back the same account: ids and emails stay unique. */
  lemma WithPasswordKeeps(t: Tables, u: User, password: string)
    requires Consistent(t) && u in t.users
    ensures Consistent(WithPassword(t, u, password))
    ensures CountersExact(t) ==> CountersExact(WithPassword(t, u, password))
  {
    var q := UserWithId(u.id);
    var v := u.(password := Hashed(password));
    FindByKey(t.users, UserKey, q, u);
    KeyedUpdate(t.users, UserKey, t.nextId, q, (x: User) => v);
    UniqueReplaceFirst(t.users, UserEmail, q, v);
  }

  lemma UpdatedKeeps(t: Tables, id: Id, patch: UserPatch)
    requires Consistent(t)
    ensures Consistent(UpdatedById(t, id, patch).0)
    ensures CountersExact(t) ==> CountersExact(UpdatedById(t, id, patch).0)
  {
    var q := UserWithId(id);
    if FindFirst(t.users, q).Some? {
      var v := Patched(FindFirst(t.users, q).value, patch);
      KeyedUpdate(t.users, UserKey, t.nextId, q, (x: User) => v);
      UniqueReplaceFirst(t.users, UserEmail, q, v);
    }
  }

  /** After `updateUser` the profile reads back as returned; other accounts do not move. */
  lemma UpdatedIsFound(t: Tables, id: Id, patch: UserPatch, id': Id)
    ensures var r := UserUpdated(t, id, patch);
      r.1.Ok? ==> GetUserById(r.0, id) == r.1
    ensures id' != id ==> GetUserById(UserUpdated(t, id, patch).0, id') == GetUserById(t, id')
  {
    var q := UserWithId(id);
    if FindFirst(t.users, q).Some? {
      var v := Patched(FindFirst(t.users, q).value, patch);
      FindReplaced(t.users, q, v);
      if id' != id {
        FindAfterReplace(t.users, q, v, UserWithId(id'));
      }
    }
  }

  lemma PasswordUpdatedKeeps(t: Tables, email: string, password: string, newPassword: string)
    requires Consistent(t)
    ensures Consistent(PasswordUpdated(t, email, password, newPassword).0)
    ensures CountersExact(t) ==> CountersExact(PasswordUpdated(t, email, password, newPassword).0)
  {
    if GetUserByEmail(t, email).Some? {
      WithPasswordKeeps(t, GetUserByEmail(t, email).value, newPassword);
    }
  }

  /** After a password change the account is found under the same email with the new
      password and nothing else changed: changing it back with the new password as the
      current one succeeds. */
  lemma PasswordUpdatedMatches(t: Tables, email: string, password: string, newPassword: string)
    requires Consistent(t)
    ensures var r := PasswordUpdated(t, email, password, newPassword);
      r.1.Ok? ==>
        && GetUserByEmail(r.0, email) == Some(GetUserByEmail(t, email).value.(password := Hashed(newPassword)))
        && PasswordUpdated(r.0, email, newPassword, password).1 == Ok(())
  {
    var r := PasswordUpdated(t, email, password, newPassword);
    if r.1.Ok? {
      var u := GetUserByEmail(t, email).value;
      SavedIsFound(t, u, newPassword);
    }
  }

  /** A saved account is the first one under its email. */
  lemma SavedIsFound(t: Tables, u: User, password: string)
    requires Consistent(t) && u in t.users
    ensures GetUserByEmail(WithPassword(t, u, password), u.email) == Some(u.(password := Hashed(password)))
  {
    var q := UserWithId(u.id);
    var v := u.(password := Hashed(password));
    var s := ReplaceFirst(t.users, q, v);
    FindByKey(t.users, UserKey, q, u);
    WithPasswordKeeps(t, u, password);
    FindReplaced(t.users, q, v);
    assert v in s;
    FindByKey(s, UserEmail, UserWithEmail(u.email), v);
  }

  /** Only a USER-role account can be reset; an admin's id is treated as unknown. */
  lemma ResetSkipsAdmins(t: Tables, id: Id, newPassword: string)
    requires Consistent(t)
    requires exists u :: u in t.users && u.id == id && u.role == AdminRole
    ensures PasswordReset(t, id, newPassword) == (t, Err(NotFound(NotFoundMessage)))
  {
    var a :| a in t.users && a.id == id && a.role == AdminRole;
    forall u | u in t.users && u.id == id ensures u.role == AdminRole {
      UniqueSameKey(t.users, UserKey, u, a);
    }
  }

  lemma PasswordResetKeeps(t: Tables, id: Id, newPassword: string)
    requires Consistent(t)
    ensures Consistent(PasswordReset(t, id, newPassword).0)
    ensures CountersExact(t) ==> CountersExact(PasswordReset(t, id, newPassword).0)
  {
    if FindFirst(t.users, UserWithIdAndRole(id, UserRole)).Some? {
      WithPasswordKeeps(t, FindFirst(t.users, UserWithIdAndRole(id, UserRole)).value, newPassword);
    }
  }
}
