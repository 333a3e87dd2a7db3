/** The role routes' handlers: create a role with a name unique among live
    roles, fetch one, fetch all, soft delete. */
module RoleController {
  import opened Replies
  import opened Store
  import opened Models

  const RoleExistsMessage: string := "Role already exists"
  const NoPermissionsMessage: string := "No permissions are defined"
  const CreatedMessage: string := "Role created successfully"
  const NoRoleMessage: string := "No role found"
  const FetchedMessage: string := "Role fetched successfully"
  const NoRolesMessage: string := "No roles are found"
  const AllFetchedMessage: string := "Roles fetched successfully"
  const NotFoundMessage: string := "Role not found!"
  const DeletedMessage: string := "Role deleted successfully"

  /** The query `{ name }`. */
  function Named(name: string): Role -> bool
  {
    (r: Role) => r.name == name
  }

  /** No two live roles share a name. The schema does not enforce it; only
      `AddRole` keeps it. Deleted roles may share a name with anything. */
  predicate LiveNamesDistinct(roles: Table<Role>)
  {
    forall i, j :: 0 <= i < j < |roles| && !roles[i].deleted && !roles[j].deleted ==>
      roles[i].doc.name != roles[j].doc.name
  }

  /** `addRole`: the name check (live roles only) comes before the
      permission check; a name the schema's `required` rule refuses (the
      empty string) makes `save()` throw. */
  function AddRole(roles: Table<Role>, name: string, permissions: seq<string>)
    : (r: (Response<Stored<Role>>, Table<Role>))
    ensures AnyLive(roles, Named(name)) ==> r == (Refuse(RoleExistsMessage), roles)
    ensures !AnyLive(roles, Named(name)) && |permissions| == 0 ==> r == (Refuse(NoPermissionsMessage), roles)
    ensures !AnyLive(roles, Named(name)) && |permissions| > 0 && name == "" ==> r == (Fault(), roles)
    ensures r.0.status <==> !AnyLive(roles, Named(name)) && |permissions| > 0 && name != ""
    ensures r.0.status ==>
              && r.1 == roles + [Row(Role(name, permissions), false)]
              && r.0 == Ok(CreatedMessage, Some(Stored(|roles|, Role(name, permissions))))
    ensures LiveNamesDistinct(roles) ==> LiveNamesDistinct(r.1)
  {
    if AnyLive(roles, Named(name)) then (Refuse(RoleExistsMessage), roles)
    else if |permissions| == 0 then (Refuse(NoPermissionsMessage), roles)
    else if name == "" then (Fault(), roles)
    else
      var role := Role(name, permissions);
      (Ok(CreatedMessage, Some(Stored(|roles|, role))), Insert(roles, role))
  }

  /** `getOneRole`: status false when the role is missing or deleted. */
  function GetOneRole(roles: Table<Role>, id: nat): (r: Response<seq<Role>>)
    ensures r.code == 200
    ensures r.status <==> IsLive(roles, id)
    ensures !r.status ==> r == Refuse(NoRoleMessage)
    ensures r.status ==> r.message == FetchedMessage && r.payload == Some([roles[id].doc])
  {
    if IsLive(roles, id) then Ok(FetchedMessage, Some([roles[id].doc])) else Refuse(NoRoleMessage)
  }

  /** `getAllRoles`: the live roles, one per row in insertion order, or
      status false when there are none. */
  function GetAllRoles(roles: Table<Role>): (r: Response<seq<Role>>)
    ensures r.code == 200
    ensures r.status <==> exists j :: 0 <= j < |roles| && !roles[j].deleted
    ensures !r.status ==> r == Refuse(NoRolesMessage)
    ensures r.status ==> r.message == AllFetchedMessage && r.payload.Some?
    ensures r.status ==> Enumerates(roles, All(), r.payload.value)
    ensures r.status ==> forall j :: 0 <= j < |roles| && IsLive(roles, j) ==> roles[j].doc in r.payload.value
    ensures r.status ==> forall i :: 0 <= i < |r.payload.value| ==>
              exists j :: 0 <= j < |roles| && IsLive(roles, j) && roles[j].doc == r.payload.value[i]
  {
    var all := LiveDocs(roles);
    if |all| == 0 then Refuse(NoRolesMessage) else Ok(AllFetchedMessage, Some(all))
  }

  /** `deleteRole`: soft delete of a live role. Users holding the role keep
      their `roleId`. */
  function DeleteRole(roles: Table<Role>, id: nat): (r: (Response<()>, Table<Role>))
    ensures r.0.status <==> IsLive(roles, id)
    ensures !r.0.status ==> r == (Refuse(NotFoundMessage), roles)
    ensures r.0.status ==> r.0 == Ok(DeletedMessage, None) && r.1 == roles[id := Row(roles[id].doc, true)]
    ensures LiveNamesDistinct(roles) ==> LiveNamesDistinct(r.1)
  {
    if !IsLive(roles, id) then (Refuse(NotFoundMessage), roles)
    else (Ok(DeletedMessage, None), SoftDelete(roles, id))
  }

  /** Once a role is added, adding another live role of the same name is
      refused. */
  lemma DuplicateRefusedAfterAdd(roles: Table<Role>, name: string, permissions: seq<string>, others: seq<string>)
    requires AddRole(roles, name, permissions).0.status
    ensures var roles' := AddRole(roles, name, permissions).1;
            AddRole(roles', name, others) == (Refuse(RoleExistsMessage), roles')
  {
    var roles' := AddRole(roles, name, permissions).1;
    assert !roles'[|roles|].deleted && Named(name)(roles'[|roles|].doc);
  }

  /** Only live roles block a name: once the sole live holder of a name is
      deleted, the name can be used again. */
  lemma NameReusableAfterDelete(roles: Table<Role>, id: nat, permissions: seq<string>)
    requires LiveNamesDistinct(roles) && IsLive(roles, id)
    requires roles[id].doc.name != "" && |permissions| > 0
    ensures var roles' := DeleteRole(roles, id).1;
            AddRole(roles', roles[id].doc.name, permissions).0.status
  {
  }
}
