/**
 * The role collection and the create, edit and delete operations of the role
 * controller. A role carries a permission list, audit fields, an approval
 * state and an activation state; the two states are independent. The store
 * is a sequence of roles plus the next free id; an error leaves it as it was.
 */
module Roles {
  import opened Wrappers
  import opened Js
  import opened Permissions

  /** The approval workflow: one of `Approved`, `Pending`, `Rejected`; new roles are `Pending`. */
  datatype Authorization = Approved | Pending | Rejected

  /** Activation: `Active` or `Inactive`; new roles are `Inactive`. */
  datatype Activation = Active | Inactive

  function AuthorizationName(a: Authorization): string {
    match a
    case Approved => "Approved"
    case Pending => "Pending"
    case Rejected => "Rejected"
  }

  function ActivationName(a: Activation): string {
    match a
    case Active => "Active"
    case Inactive => "Inactive"
  }

  /** The schema's enum check for `authorized`: only the three names are accepted. */
  function ParseAuthorization(s: string): (r: Option<Authorization>)
    ensures r.Some? ==> AuthorizationName(r.value) == s
    ensures forall a :: AuthorizationName(a) == s ==> r == Some(a)
  {
    if s == "Approved" then Some(Approved)
    else if s == "Pending" then Some(Pending)
    else if s == "Rejected" then Some(Rejected)
    else None
  }

  /** The schema's enum check for `status`: only the two names are accepted. */
  function ParseActivation(s: string): (r: Option<Activation>)
    ensures r.Some? ==> ActivationName(r.value) == s
    ensures forall a :: ActivationName(a) == s ==> r == Some(a)
  {
    if s == "Active" then Some(Active)
    else if s == "Inactive" then Some(Inactive)
    else None
  }

  datatype Role = Role(
    id: nat,
    name: string,
    description: Option<string>,
    permissions: seq<PermissionEntry>,
    createdBy: Option<string>,
    updatedBy: Option<string>,
    authorizedBy: Option<string>,
    authorizedAt: Option<int>,
    authorized: Authorization,
    status: Activation,
    createdAt: nat,
    updatedAt: nat)

  datatype RoleStore = RoleStore(roles: seq<Role>, nextId: nat)

  datatype RoleError =
    | NameDescriptionRequired   // "Name and description are required.", 400
    | RoleNotFound              // "UserRole not found.", 404
    | ServerError               // thrown on save (schema validation) and caught: 500

  /**
   * A truthy `authorizedAt` from a request body: a value the `Date` path
   * casts to a time in milliseconds, or one it cannot cast (such as
   * `"not-a-date"`), which makes the save fail.
   */
  datatype DateInput = CastsTo(ms: int) | Uncastable

  /** The fields an edit request may carry; `None` stands for any falsy value. */
  datatype EditRequest = EditRequest(
    name: Option<string>,
    description: Option<string>,
    permissions: Option<seq<PermissionEntry>>,
    updatedBy: Option<string>,
    authorized: Option<string>,
    authorizedBy: Option<string>,
    authorizedAt: Option<DateInput>,
    status: Option<string>)

  /** A successful create or edit: the new store and the saved role. */
  datatype Saved = Saved(store: RoleStore, role: Role)

  // ---------------------------------------------------------------------------
  // Store invariant

  predicate UniqueIds(roles: seq<Role>) {
    forall i, j :: 0 <= i < j < |roles| ==> roles[i].id != roles[j].id
  }

  /** Ids are distinct and below the next id; every role has the name the schema requires. */
  predicate Valid(s: RoleStore) {
    && UniqueIds(s.roles)
    && (forall i :: 0 <= i < |s.roles| ==> s.roles[i].id < s.nextId && s.roles[i].name != "")
  }

  /** `findById`: the position of the role with `id`, if any. */
  function FindById(roles: seq<Role>, id: nat): (r: Option<nat>)
    ensures r.Some? ==> r.value < |roles| && roles[r.value].id == id
    ensures r.None? <==> forall j :: 0 <= j < |roles| ==> roles[j].id != id
  {
    if roles == [] then None
    else if roles[0].id == id then Some(0)
    else
      match FindById(roles[1..], id)
      case None => None
      case Some(i) => Some(i + 1)
  }

  // ---------------------------------------------------------------------------
  // createRole

  /**
   * `createRole`: name and description must be truthy. The workflow fields
   * are not read from the request, so every new role is `Pending` and
   * `Inactive`; an absent permission list is stored empty.
   */
  function CreateRole(s: RoleStore, name: Option<string>, description: Option<string>,
                      permissions: Option<seq<PermissionEntry>>, createdBy: Option<string>, now: nat)
    : (r: Result<Saved, RoleError>)
    ensures r.Err? <==> !Truthy(name) || !Truthy(description)
    ensures r.Err? ==> r.error == NameDescriptionRequired
    ensures r.Ok? ==>
      var role := r.value.role;
      && r.value.store == RoleStore(s.roles + [role], s.nextId + 1)
      && role.id == s.nextId
      && role.name == name.value && role.description == description
      && role.permissions == permissions.GetOr([]) && role.createdBy == createdBy
      && role.authorized == Pending && role.status == Inactive
      && role.updatedBy.None? && role.authorizedBy.None? && role.authorizedAt.None?
      && role.createdAt == now && role.updatedAt == now
  {
    if !Truthy(name) || !Truthy(description) then Err(NameDescriptionRequired)
    else
      var role := Role(
        id := s.nextId,
        name := name.value,
        description := description,
        permissions := permissions.GetOr([]),
        createdBy := createdBy,
        updatedBy := None,
        authorizedBy := None,
        authorizedAt := None,
        authorized := Pending,
        status := Inactive,
        createdAt := now,
        updatedAt := now);
      Ok(Saved(RoleStore(s.roles + [role], s.nextId + 1), role))
  }

  // ---------------------------------------------------------------------------
  // editRole

  /** The role after the edit's assignments, before the schema validates it. */
  function ApplyEdit(role: Role, req: EditRequest, authorized: Authorization, status: Activation, now: nat): Role
    requires Truthy(req.name)
    requires req.authorizedAt.Some? ==> req.authorizedAt.value.CastsTo?
  {
    role.(
      name := req.name.value,
      description := req.description,
      permissions := if req.permissions.Some? then req.permissions.value else role.permissions,
      updatedBy := if Truthy(req.updatedBy) then req.updatedBy else role.updatedBy,
      updatedAt := now,
      authorized := authorized,
      authorizedBy := if Truthy(req.authorizedBy) then req.authorizedBy else role.authorizedBy,
      authorizedAt := if req.authorizedAt.Some? then Some(req.authorizedAt.value.ms) else role.authorizedAt,
      status := status)
  }

  /**
   * `editRole`: name and description are checked before the lookup; then the
   * id must resolve; then name, description and the update time are always
   * written and the other fields only when supplied. A supplied `authorized`
   * or `status` outside its enum, or an `authorizedAt` that is no date, fails
   * the save.
   */
  function EditRole(s: RoleStore, id: nat, req: EditRequest, now: nat): (r: Result<Saved, RoleError>)
    ensures r == Err(NameDescriptionRequired) <==> !Truthy(req.name) || !Truthy(req.description)
    ensures Truthy(req.name) && Truthy(req.description) && FindById(s.roles, id).None? ==> r == Err(RoleNotFound)
    ensures r.Ok? <==>
      && Truthy(req.name) && Truthy(req.description) && FindById(s.roles, id).Some?
      && (!Truthy(req.authorized) || ParseAuthorization(req.authorized.value).Some?)
      && (!Truthy(req.status) || ParseActivation(req.status.value).Some?)
      && (req.authorizedAt.Some? ==> req.authorizedAt.value.CastsTo?)
    ensures r.Err? && r.error == ServerError <==>
      && Truthy(req.name) && Truthy(req.description) && FindById(s.roles, id).Some?
      && ((Truthy(req.authorized) && ParseAuthorization(req.authorized.value).None?)
          || (Truthy(req.status) && ParseActivation(req.status.value).None?)
          || req.authorizedAt == Some(Uncastable))
    ensures r.Ok? ==>
      var i := FindById(s.roles, id).value;
      var old_ := s.roles[i];
      var new_ := r.value.role;
      && r.value.store == s.(roles := s.roles[i := new_])
      && new_.id == old_.id && new_.createdAt == old_.createdAt && new_.createdBy == old_.createdBy
      && new_.name == req.name.value && new_.description == req.description && new_.updatedAt == now
      && new_.permissions == (if req.permissions.Some? then req.permissions.value else old_.permissions)
      && new_.updatedBy == (if Truthy(req.updatedBy) then req.updatedBy else old_.updatedBy)
      && new_.authorizedBy == (if Truthy(req.authorizedBy) then req.authorizedBy else old_.authorizedBy)
      && new_.authorizedAt == (if req.authorizedAt.Some? then Some(req.authorizedAt.value.ms) else old_.authorizedAt)
      && (Truthy(req.authorized) ==> AuthorizationName(new_.authorized) == req.authorized.value)
      && (!Truthy(req.authorized) ==> new_.authorized == old_.authorized)
      && (Truthy(req.status) ==> ActivationName(new_.status) == req.status.value)
      && (!Truthy(req.status) ==> new_.status == old_.status)
  {
    if !Truthy(req.name) || !Truthy(req.description) then Err(NameDescriptionRequired)
    else
      match FindById(s.roles, id)
      case None => Err(RoleNotFound)
      case Some(i) =>
        var role := s.roles[i];
        var authorized := if Truthy(req.authorized) then ParseAuthorization(req.authorized.value) else Some(role.authorized);
        var status := if Truthy(req.status) then ParseActivation(req.status.value) else Some(role.status);
        if authorized.None? || status.None? || req.authorizedAt == Some(Uncastable) then Err(ServerError)
        else
          var role' := ApplyEdit(role, req, authorized.value, status.value, now);
          Ok(Saved(s.(roles := s.roles[i := role']), role'))
  }

  // ---------------------------------------------------------------------------
  // deleteRole

  /** The roles without position `i`. */
  function RemoveAt(roles: seq<Role>, i: nat): (r: seq<Role>)
    requires i < |roles|
    ensures |r| == |roles| - 1
    ensures forall j :: 0 <= j < i ==> r[j] == roles[j]
    ensures forall j :: i <= j < |r| ==> r[j] == roles[j + 1]
  {
    roles[..i] + roles[i + 1..]
  }

  /** `deleteRole`: not-found for an unknown id; otherwise a hard delete of that role. */
  function DeleteRole(s: RoleStore, id: nat): (r: Result<RoleStore, RoleError>)
    ensures r.Err? <==> forall j :: 0 <= j < |s.roles| ==> s.roles[j].id != id
    ensures r.Err? ==> r.error == RoleNotFound
    ensures r.Ok? ==> |r.value.roles| == |s.roles| - 1 && r.value.nextId == s.nextId
    ensures r.Ok? ==> forall x :: x in r.value.roles ==> x in s.roles
  {
    match FindById(s.roles, id)
    case None => Err(RoleNotFound)
    case Some(i) => Ok(s.(roles := RemoveAt(s.roles, i)))
  }

  // ---------------------------------------------------------------------------
  // Properties

  /** With distinct ids, a delete removes exactly the role with that id and keeps the others in order. */
  lemma DeleteExactly(s: RoleStore, id: nat)
    requires Valid(s)
    requires DeleteRole(s, id).Ok?
    ensures var t := DeleteRole(s, id).value;
      && (forall x :: x in t.roles ==> x.id != id)
      && (forall x :: x in s.roles && x.id != id ==> x in t.roles)
      && Valid(t)
  {
    var i := FindById(s.roles, id).value;
    var t := DeleteRole(s, id).value;
    forall x | x in t.roles
      ensures x.id != id
    {
      var k :| 0 <= k < |t.roles| && t.roles[k] == x;
      if k < i { assert x == s.roles[k]; } else { assert x == s.roles[k + 1]; }
    }
    forall x | x in s.roles && x.id != id
      ensures x in t.roles
    {
      var k :| 0 <= k < |s.roles| && s.roles[k] == x;
      if k < i { assert t.roles[k] == x; } else { assert k != i; assert t.roles[k - 1] == x; }
    }
    forall a, b | 0 <= a < b < |t.roles|
      ensures t.roles[a].id != t.roles[b].id
    {
      var a' := if a < i then a else a + 1;
      var b' := if b < i then b else b + 1;
      assert t.roles[a] == s.roles[a'] && t.roles[b] == s.roles[b'];
    }
    forall k | 0 <= k < |t.roles|
      ensures t.roles[k].id < t.nextId && t.roles[k].name != ""
    {
      if k < i { assert t.roles[k] == s.roles[k]; } else { assert t.roles[k] == s.roles[k + 1]; }
    }
  }

  lemma CreatePreservesValid(s: RoleStore, name: Option<string>, description: Option<string>,
                             permissions: Option<seq<PermissionEntry>>, createdBy: Option<string>, now: nat)
    requires Valid(s)
    requires CreateRole(s, name, description, permissions, createdBy, now).Ok?
    ensures Valid(CreateRole(s, name, description, permissions, createdBy, now).value.store)
  {
  }

  /** An edit keeps the store valid and leaves every other role untouched. */
  lemma EditPreservesValid(s: RoleStore, id: nat, req: EditRequest, now: nat)
    requires Valid(s)
    requires EditRole(s, id, req, now).Ok?
    ensures var t := EditRole(s, id, req, now).value.store;
      && Valid(t)
      && |t.roles| == |s.roles|
      && (forall j :: 0 <= j < |s.roles| && s.roles[j].id != id ==> t.roles[j] == s.roles[j])
  {
    var i := FindById(s.roles, id).value;
    var t := EditRole(s, id, req, now).value.store;
    assert forall j :: 0 <= j < |s.roles| ==> t.roles[j].id == s.roles[j].id;
  }

  /** Approval and activation are independent: an edit naming only the status keeps the approval state. */
  lemma StatusIndependentOfApproval(s: RoleStore, id: nat, name: string, description: string, status: Activation, now: nat)
    requires name != "" && description != ""
    requires FindById(s.roles, id).Some?
    ensures var req := EditRequest(Some(name), Some(description), None, None, None, None, None, Some(ActivationName(status)));
      var r := EditRole(s, id, req, now);
      && r.Ok?
      && r.value.role.status == status
      && r.value.role.authorized == s.roles[FindById(s.roles, id).value].authorized
  {
  }
}
