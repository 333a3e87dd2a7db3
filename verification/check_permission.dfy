/** The authorization gate put in front of every protected route:
    `checkPermission(...names)` lets a request through when the caller's
    role is `superAdmin` or grants the first requested name, and refuses it
    otherwise, turning every failure to resolve the role into a refusal. */
module CheckPermission {
  import opened Replies
  import opened Store
  import opened Models

  /** The role name that bypasses the permission test. */
  const SuperAdmin: string := "superAdmin"

  /** The message of both kinds of refusal. */
  const NotAuthorized: string := "You are not authorized to do that"

  /** A `roleId` populated with its role document when the caller was
      authenticated: the identifier and the document as read then. */
  datatype RoleRef = RoleRef(id: nat, role: Role)

  /** `req.user`: the authenticated caller's user document, with `roleId`
      either null or populated. */
  datatype Principal = Principal(user: User, roleRef: Option<RoleRef>)

  /** `next()` or a refusal with its HTTP code. */
  datatype Decision = Allow | Deny(code: nat, message: string)

  /** `Role.find({_id: req.user.roleId._id})` returns a document: the caller
      has a role reference and that role is live. Otherwise the gate reads a
      property of null or undefined, and the error lands in the `catch`. */
  predicate Resolves(roles: Table<Role>, p: Principal)
  {
    p.roleRef.Some? && IsLive(roles, p.roleRef.value.id)
  }

  /** The gate. The bypass name is read from the freshly looked-up role,
      but membership is looked up in the permissions of the role as it was
      populated into the principal. Only `names[0]` is looked at; with no
      names at all, `includes(undefined)` is false. */
  function Check(roles: Table<Role>, p: Principal, names: seq<string>): (d: Decision)
    ensures d.Deny? ==> d.message == NotAuthorized
    ensures !Resolves(roles, p) ==> d == Deny(500, NotAuthorized)
    ensures Resolves(roles, p) && roles[p.roleRef.value.id].doc.name == SuperAdmin ==> d == Allow
    ensures Resolves(roles, p) && roles[p.roleRef.value.id].doc.name != SuperAdmin ==>
              (d == Allow <==> |names| > 0 && names[0] in p.roleRef.value.role.permissions)
    ensures Resolves(roles, p) && d.Deny? ==> d.code == 200
  {
    match p.roleRef
    case None => Deny(500, NotAuthorized)
    case Some(ref) =>
      if !IsLive(roles, ref.id) then Deny(500, NotAuthorized)
      else if roles[ref.id].doc.name == SuperAdmin then Allow
      else if |names| > 0 && names[0] in ref.role.permissions then Allow
      else Deny(200, NotAuthorized)
  }

  /** What a role is meant to grant: everything for the bypass role,
      otherwise exactly the listed permission strings. */
  predicate Grants(role: Role, permission: string)
  {
    role.name == SuperAdmin || permission in role.permissions
  }

  /** The principal's populated role is the live role document itself (it
      was populated from the same store the gate reads). */
  predicate Current(roles: Table<Role>, p: Principal)
  {
    Resolves(roles, p) && p.roleRef.value.role == roles[p.roleRef.value.id].doc
  }

  /** With a current snapshot, the gate allows exactly what the role grants,
      for the first requested permission. */
  lemma GateMatchesGrants(roles: Table<Role>, p: Principal, permission: string, rest: seq<string>)
    requires Current(roles, p)
    ensures Check(roles, p, [permission] + rest) == Allow <==> Grants(roles[p.roleRef.value.id].doc, permission)
  {
  }

  /** A caller whose role resolves to `superAdmin` passes every check, even
      one naming a permission no role lists. */
  lemma SuperAdminPassesEverything(roles: Table<Role>, p: Principal, names: seq<string>)
    requires Resolves(roles, p) && roles[p.roleRef.value.id].doc.name == SuperAdmin
    ensures Check(roles, p, names) == Allow
  {
  }

  /** Names after the first are ignored. */
  lemma OnlyFirstNameCounts(roles: Table<Role>, p: Principal, first: string, rest: seq<string>)
    ensures Check(roles, p, [first] + rest) == Check(roles, p, [first])
  {
  }

  /** The user's own fields, the `active`/`inactive` status included, take
      no part in the decision. */
  lemma UserFieldsIrrelevant(roles: Table<Role>, p: Principal, u: User, names: seq<string>)
    ensures Check(roles, p.(user := u), names) == Check(roles, p, names)
  {
  }

  /** The two refusals differ only in their HTTP code: 500 when the role
      could not be resolved, 200 when the permission is missing. */
  lemma RefusalsShareMessage(roles: Table<Role>, p: Principal, q: Principal, names: seq<string>)
    requires Check(roles, p, names).Deny? && Check(roles, q, names).Deny?
    ensures Check(roles, p, names).message == Check(roles, q, names).message
    ensures Check(roles, p, names).code == 500 <==> !Resolves(roles, p)
  {
  }

  /** The mismatch between the two sources: the role's stored permissions
      do not matter, only the populated snapshot's; the stored name does
      matter, the snapshot's does not. */
  lemma StoredPermissionsIgnored(roles: Table<Role>, p: Principal, perms: seq<string>, names: seq<string>)
    requires Resolves(roles, p)
    ensures var id := p.roleRef.value.id;
            var roles' := Replace(roles, id, roles[id].doc.(permissions := perms));
            Check(roles', p, names) == Check(roles, p, names)
  {
  }

  /** An empty permission string is refused unless the role is the bypass
      role or lists the empty string itself. */
  lemma EmptyNameRefused(roles: Table<Role>, p: Principal)
    requires Current(roles, p) && !Grants(roles[p.roleRef.value.id].doc, "")
    ensures Check(roles, p, [""]) == Deny(200, NotAuthorized)
  {
  }
}
