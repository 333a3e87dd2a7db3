/** The user routes' handlers: registration, login and the account
    lifecycle. A new account is inactive and has no role; approval gives it
    a role and activates it; it can then be deactivated and activated again;
    deletion is soft, and a deleted account's email stays taken. */
module UserController {
  import opened Replies
  import opened Store
  import opened Models
  import opened RoleController

  const EmailExistsMessage: string := "Email already exists"
  const PasswordMismatchMessage: string := "Your new password is not equal to confirm password."
  const UserCreatedMessage: string := "User created successfully"
  const EmailNotFoundMessage: string := "Email not found!"
  const InactiveMessage: string := "You are inactive, Please contact your administrator!"
  const BadCredentialsMessage: string := "Email and password may be incorrect!"
  const LoginMessage: string := "Login successfully"
  const ApprovedMessage: string := "User approved successfully"
  const DeactivatedMessage: string := "User deactivated successfully"
  const ActivatedMessage: string := "User activated successfully"
  const UserNotFoundMessage: string := "User not found!"
  const UserDeletedMessage: string := "User deleted successfully"

  /** A user as returned by registration: the stored document without its
      password. */
  datatype UserView = UserView(id: nat, name: string, email: string, roleId: Option<nat>, status: Status)

  /** The claims of the issued JSON web token. Signing, the secret and the
      60-day expiry are not modelled. */
  datatype Token = Token(name: string, email: string, userId: nat)

  /** The extra fields of a successful login reply. */
  datatype Session = Session(token: Token, name: string, role: Option<string>)

  /** The query `{ email }`. */
  function WithEmail(email: string): User -> bool
  {
    (u: User) => u.email == email
  }

  /** `findOne({email}) || findOneDeleted({email})`. */
  predicate EmailTaken(users: Table<User>, email: string)
  {
    AnyLive(users, WithEmail(email)) || AnyDeleted(users, WithEmail(email))
  }

  /** No two accounts, live or deleted, share an email. */
  predicate EmailsDistinct(users: Table<User>)
  {
    forall i, j :: 0 <= i < j < |users| ==> users[i].doc.email != users[j].doc.email
  }

  /** Two tables hold the same accounts: same emails, names, passwords and
      deletion flags, row by row. Only `roleId` and `status` may differ. */
  predicate SameAccounts(users: Table<User>, users': Table<User>)
  {
    && |users'| == |users|
    && forall k :: 0 <= k < |users| ==>
         && users'[k].deleted == users[k].deleted
         && users'[k].doc.email == users[k].doc.email
         && users'[k].doc.name == users[k].doc.name
         && users'[k].doc.password == users[k].doc.password
  }

  /** The email check looks at live and deleted accounts alike. */
  lemma EmailTakenByAnyRow(users: Table<User>, email: string)
    ensures EmailTaken(users, email) <==> exists j :: 0 <= j < |users| && users[j].doc.email == email
  {
    if exists j :: 0 <= j < |users| && users[j].doc.email == email {
      var j :| 0 <= j < |users| && users[j].doc.email == email;
      assert WithEmail(email)(users[j].doc);
    }
  }

  /** `registerUser`: email (live or deleted), then password confirmation;
      an empty name or email fails the schema's `required` rule in
      `save()`. The new account is inactive and has no role. */
  function RegisterUser(users: Table<User>, name: string, email: string, password: string, confirm: string)
    : (r: (Response<UserView>, Table<User>))
    ensures EmailTaken(users, email) ==> r == (Refuse(EmailExistsMessage), users)
    ensures !EmailTaken(users, email) && password != confirm ==> r == (Refuse(PasswordMismatchMessage), users)
    ensures !EmailTaken(users, email) && password == confirm && (name == "" || email == "") ==> r == (Fault(), users)
    ensures r.0.status <==> !EmailTaken(users, email) && password == confirm && name != "" && email != ""
    ensures r.0.status ==>
              && r.1 == users + [Row(User(name, email, Hashed(password), None, Inactive), false)]
              && r.0 == Ok(UserCreatedMessage, Some(UserView(|users|, name, email, None, Inactive)))
    ensures EmailsDistinct(users) ==> EmailsDistinct(r.1)
  {
    if EmailTaken(users, email) then (Refuse(EmailExistsMessage), users)
    else if password != confirm then (Refuse(PasswordMismatchMessage), users)
    else if name == "" || email == "" then (Fault(), users)
    else
      EmailTakenByAnyRow(users, email);
      var u := NewUser(name, email, Hashed(password));
      (Ok(UserCreatedMessage, Some(UserView(|users|, name, email, u.roleId, u.status))), Insert(users, u))
  }

  /** `role?.name || null` for the role the account refers to: `findById`
      sees live roles only, and an empty name is falsy. */
  function RoleName(roles: Table<Role>, roleId: Option<nat>): (n: Option<string>)
    ensures n.Some? ==> roleId.Some? && IsLive(roles, roleId.value) && n.value == roles[roleId.value].doc.name
    ensures n.Some? ==> n.value != ""
    ensures roleId.Some? && IsLive(roles, roleId.value) && roles[roleId.value].doc.name != "" ==> n.Some?
  {
    if roleId.Some? && IsLive(roles, roleId.value) && roles[roleId.value].doc.name != ""
    then Some(roles[roleId.value].doc.name)
    else None
  }

  /** `userLogin`: unknown email, then the inactive status (before the
      password is compared), then a wrong password. */
  function UserLogin(users: Table<User>, roles: Table<Role>, email: string, password: string): (r: Response<Session>)
    ensures r.code == 200
    ensures !AnyLive(users, WithEmail(email)) ==> r == Refuse(EmailNotFoundMessage)
    ensures AnyLive(users, WithEmail(email)) ==>
              var i := FirstLive(users, WithEmail(email)).value;
              var u := users[i].doc;
              && (u.status == Inactive ==> r == Refuse(InactiveMessage))
              && (u.status == Active && !PasswordMatches(password, u.password) ==> r == Refuse(BadCredentialsMessage))
              && (r.status <==> u.status == Active && PasswordMatches(password, u.password))
              && (r.status ==> r == Ok(LoginMessage, Some(Session(Token(u.name, email, i), u.name, RoleName(roles, u.roleId)))))
  {
    match FirstLive(users, WithEmail(email))
    case None => Refuse(EmailNotFoundMessage)
    case Some(i) =>
      var u := users[i].doc;
      if u.status == Inactive then Refuse(InactiveMessage)
      else if !PasswordMatches(password, u.password) then Refuse(BadCredentialsMessage)
      else Ok(LoginMessage, Some(Session(Token(u.name, u.email, i), u.name, RoleName(roles, u.roleId))))
  }

  /** `approveUser`: the account must exist, then the first live role named
      `userRole` is read; when there is none, `role[0]._id` throws before
      anything is written. The account gets that role and becomes active. */
  function ApproveUser(users: Table<User>, roles: Table<Role>, email: string, userRole: string)
    : (r: (Response<()>, Table<User>))
    ensures !AnyLive(users, WithEmail(email)) ==> r == (Refuse(EmailNotFoundMessage), users)
    ensures AnyLive(users, WithEmail(email)) && !AnyLive(roles, Named(userRole)) ==> r == (Fault(), users)
    ensures r.0.status <==> AnyLive(users, WithEmail(email)) && AnyLive(roles, Named(userRole))
    ensures r.0.status ==>
              var i := FirstLive(users, WithEmail(email)).value;
              var j := FirstLive(roles, Named(userRole)).value;
              && r.0 == Ok(ApprovedMessage, None)
              && r.1 == users[i := Row(users[i].doc.(roleId := Some(j), status := Active), false)]
    ensures SameAccounts(users, r.1)
    ensures EmailsDistinct(users) ==> EmailsDistinct(r.1)
  {
    match FirstLive(users, WithEmail(email))
    case None => (Refuse(EmailNotFoundMessage), users)
    case Some(i) =>
      match FirstLive(roles, Named(userRole))
      case None => (Fault(), users)
      case Some(j) =>
        (Ok(ApprovedMessage, None), Replace(users, i, users[i].doc.(roleId := Some(j), status := Active)))
  }

  /** The shared shape of `deactivateUser` and `activateUser`: set the
      status of the account with that email, leaving its role alone. */
  function SetStatus(users: Table<User>, email: string, status: Status, message: string)
    : (r: (Response<()>, Table<User>))
    ensures !AnyLive(users, WithEmail(email)) ==> r == (Refuse(EmailNotFoundMessage), users)
    ensures AnyLive(users, WithEmail(email)) ==>
              var i := FirstLive(users, WithEmail(email)).value;
              && r.0 == Ok(message, None)
              && r.1 == users[i := Row(users[i].doc.(status := status), false)]
    ensures SameAccounts(users, r.1)
    ensures EmailsDistinct(users) ==> EmailsDistinct(r.1)
  {
    match FirstLive(users, WithEmail(email))
    case None => (Refuse(EmailNotFoundMessage), users)
    case Some(i) => (Ok(message, None), Replace(users, i, users[i].doc.(status := status)))
  }

  /** `deactivateUser`: the account becomes inactive, its role is kept. */
  function DeactivateUser(users: Table<User>, email: string): (r: (Response<()>, Table<User>))
    ensures SameAccounts(users, r.1)
    ensures r.0.status <==> AnyLive(users, WithEmail(email))
    ensures !r.0.status ==> r == (Refuse(EmailNotFoundMessage), users)
    ensures r.0.status ==>
              var i := FirstLive(users, WithEmail(email)).value;
              && r.0.message == DeactivatedMessage
              && r.1[i].doc.status == Inactive && r.1[i].doc.roleId == users[i].doc.roleId
              && forall k :: 0 <= k < |users| && k != i ==> r.1[k] == users[k]
  {
    SetStatus(users, email, Inactive, DeactivatedMessage)
  }

  /** `activateUser`: the account becomes active, its role is kept. */
  function ActivateUser(users: Table<User>, email: string): (r: (Response<()>, Table<User>))
    ensures SameAccounts(users, r.1)
    ensures r.0.status <==> AnyLive(users, WithEmail(email))
    ensures !r.0.status ==> r == (Refuse(EmailNotFoundMessage), users)
    ensures r.0.status ==>
              var i := FirstLive(users, WithEmail(email)).value;
              && r.0.message == ActivatedMessage
              && r.1[i].doc.status == Active && r.1[i].doc.roleId == users[i].doc.roleId
              && forall k :: 0 <= k < |users| && k != i ==> r.1[k] == users[k]
  {
    SetStatus(users, email, Active, ActivatedMessage)
  }

  /** `deleteUser`: soft delete by identifier. */
  function DeleteUser(users: Table<User>, id: nat): (r: (Response<()>, Table<User>))
    ensures r.0.status <==> IsLive(users, id)
    ensures !r.0.status ==> r == (Refuse(UserNotFoundMessage), users)
    ensures r.0.status ==> r.0 == Ok(UserDeletedMessage, None) && r.1 == users[id := Row(users[id].doc, true)]
    ensures EmailsDistinct(users) ==> EmailsDistinct(r.1)
  {
    if !IsLive(users, id) then (Refuse(UserNotFoundMessage), users)
    else (Ok(UserDeletedMessage, None), SoftDelete(users, id))
  }
}
