/** How the handlers compose: the account lifecycle seen through login and
    the authorization gate, soft deletes seen through later requests, and
    a new expense seen through the summary report. */
module Lifecycle {
  import opened Replies
  import opened Calendar
  import opened Store
  import opened Models
  import opened CheckPermission
  import opened RoleController
  import opened UserController
  import opened ExpenseController
  import opened Summary

  /** `req.user` as the JWT strategy builds it for account `uid`: the
      account's document, its `roleId` populated from the role table. A
      dangling or deleted role may populate to null or to its document;
      the gate refuses both alike. */
  predicate AuthenticatedAs(users: Table<User>, roles: Table<Role>, uid: nat, p: Principal)
  {
    && IsLive(users, uid) && p.user == users[uid].doc
    && (p.roleRef.Some? ==>
          && users[uid].doc.roleId == Some(p.roleRef.value.id)
          && p.roleRef.value.id < |roles|
          && p.roleRef.value.role == roles[p.roleRef.value.id].doc)
    && (users[uid].doc.roleId.Some? && IsLive(roles, users[uid].doc.roleId.value) ==> p.roleRef.Some?)
  }

  /** A freshly registered account is inactive: logging in is refused
      whatever password is given. */
  lemma NewAccountCannotLogIn(users: Table<User>, roles: Table<Role>, name: string, email: string,
                              password: string, attempt: string)
    requires RegisterUser(users, name, email, password, password).0.status
    ensures var users' := RegisterUser(users, name, email, password, password).1;
            UserLogin(users', roles, email, attempt) == Refuse(InactiveMessage)
  {
    FirstLiveAfterInsert(users, WithEmail(email), NewUser(name, email, Hashed(password)));
  }

  /** A freshly registered account has no role: the gate refuses it every
      permission, with HTTP 500. */
  lemma NewAccountDenied(users: Table<User>, roles: Table<Role>, name: string, email: string,
                         password: string, p: Principal, names: seq<string>)
    requires RegisterUser(users, name, email, password, password).0.status
    requires AuthenticatedAs(RegisterUser(users, name, email, password, password).1, roles, |users|, p)
    ensures Check(roles, p, names) == Deny(500, NotAuthorized)
  {
  }

  /** After approval the account's requests pass the gate exactly for what
      the approving role grants. */
  lemma ApprovedAccountGate(users: Table<User>, roles: Table<Role>, email: string, userRole: string,
                            p: Principal, permission: string, rest: seq<string>)
    requires ApproveUser(users, roles, email, userRole).0.status
    requires AuthenticatedAs(ApproveUser(users, roles, email, userRole).1, roles,
                             FirstLive(users, WithEmail(email)).value, p)
    ensures Check(roles, p, [permission] + rest) == Allow
            <==> Grants(roles[FirstLive(roles, Named(userRole)).value].doc, permission)
  {
    GateMatchesGrants(roles, p, permission, rest);
  }

  /** After approval the right password logs in, and the reply names the
      approving role. */
  lemma ApprovedAccountLogsIn(users: Table<User>, roles: Table<Role>, email: string, userRole: string,
                              password: string)
    requires ApproveUser(users, roles, email, userRole).0.status
    requires userRole != ""
    requires PasswordMatches(password, users[FirstLive(users, WithEmail(email)).value].doc.password)
    ensures var r := UserLogin(ApproveUser(users, roles, email, userRole).1, roles, email, password);
            r.status && r.payload.value.role == Some(userRole)
  {
    var users' := ApproveUser(users, roles, email, userRole).1;
    FirstLiveStable(users, users', WithEmail(email));
  }

  /** A deactivated account cannot log in, whatever password is given. */
  lemma DeactivatedAccountCannotLogIn(users: Table<User>, roles: Table<Role>, email: string, attempt: string)
    requires DeactivateUser(users, email).0.status
    ensures UserLogin(DeactivateUser(users, email).1, roles, email, attempt) == Refuse(InactiveMessage)
  {
    FirstLiveStable(users, DeactivateUser(users, email).1, WithEmail(email));
  }

  /** A reactivated account logs in exactly with its password. */
  lemma ActivatedAccountLogsIn(users: Table<User>, roles: Table<Role>, email: string, attempt: string)
    requires ActivateUser(users, email).0.status
    ensures UserLogin(ActivateUser(users, email).1, roles, email, attempt).status
            <==> PasswordMatches(attempt, users[FirstLive(users, WithEmail(email)).value].doc.password)
  {
    FirstLiveStable(users, ActivateUser(users, email).1, WithEmail(email));
  }

  /** A deleted account's email still blocks registration. */
  lemma DeletedEmailStaysTaken(users: Table<User>, id: nat, name: string, password: string, confirm: string)
    requires DeleteUser(users, id).0.status
    ensures var users' := DeleteUser(users, id).1;
            RegisterUser(users', name, users[id].doc.email, password, confirm) == (Refuse(EmailExistsMessage), users')
  {
    var users' := DeleteUser(users, id).1;
    assert users'[id].deleted && WithEmail(users[id].doc.email)(users'[id].doc);
  }

  /** With distinct emails, a deleted account can no longer log in. */
  lemma DeletedAccountCannotLogIn(users: Table<User>, roles: Table<Role>, id: nat, attempt: string)
    requires EmailsDistinct(users) && DeleteUser(users, id).0.status
    ensures UserLogin(DeleteUser(users, id).1, roles, users[id].doc.email, attempt) == Refuse(EmailNotFoundMessage)
  {
    var users' := DeleteUser(users, id).1;
    var email := users[id].doc.email;
    forall j | 0 <= j < |users'| && !users'[j].deleted
      ensures !WithEmail(email)(users'[j].doc)
    {
      assert j != id && users'[j] == users[j];
    }
  }

  /** Deleting a role locks out every account still referring to it: the
      gate's fresh lookup finds nothing and answers 500. */
  lemma DeletedRoleLocksOutHolders(roles: Table<Role>, id: nat, p: Principal, names: seq<string>)
    requires DeleteRole(roles, id).0.status
    requires p.roleRef.Some? && p.roleRef.value.id == id
    ensures Check(DeleteRole(roles, id).1, p, names) == Deny(500, NotAuthorized)
  {
  }

  /** A new expense dated inside a summary window is part of that window's
      report. The expense's date is sent in its `YYYY-MM-DD` spelling. */
  lemma AddedExpenseInSummary(expenses: Table<Entry>, incomes: Table<Entry>, caller: nat, category: string,
                              d: CalDate, amount: real, end: Option<string>, filter: Option<string>,
                              today: CalDate)
    requires Valid(d) && 0 <= d.year <= 9999 && amount >= 0.0 && |category| >= 3
    requires end != Some("") && Valid(today) && QueryValid(end, filter)
    requires AtOrAfter(d, WindowStart(end, filter, today))
    ensures var r := GetSummaryByFilter(end, filter, today, incomes,
                                        AddExpense(expenses, caller, category, FormatDate(d), amount).1);
            r.status && Entry(category, Some(d), amount, caller) in r.payload.value.expenses
  {
    FormatThenParse(d);
    var expenses' := AddExpense(expenses, caller, category, FormatDate(d), amount).1;
    var start := WindowStart(end, filter, today);
    var e := Entry(category, Some(d), amount, caller);
    assert expenses'[|expenses|] == Row(e, false);
    assert InWindow(start, e);
    assert AnyLive(expenses', Dated(start));
  }
}
