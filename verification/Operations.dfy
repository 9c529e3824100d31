/** What each operation of the service means: the decision that guards it, the metadata it leaves,
    and the synchronization that follows. */
module Operations {
  import opened Catalog
  import opened AuthModel
  import opened Compiler
  import opened Lists
  import opened Metadata
  import opened ScopeRules
  import opened Encoding
  import Slug

  /** The three stores: metadata, the remembered projection, and the tuples of the engine. */
  datatype System = System(meta: Metadata, synced: set<Tuple>, engine: set<Tuple>)

  // ---------------------------------------------------------------- decisions

  /** A check: argument errors first, then the resource must be stored, then the engine answers. */
  function Check(s: System, principal: string, permission: Option<Permission>, r: Ref): Result<bool, Error> {
    if principal == "" || r.typ == Unrecognised || r.id == "" || permission.None? then Failure(Invalid)
    else if (if r.typ == Controller then r.id != CONTROLLER_ID else r !in s.meta.resources) then Failure(NotFound)
    else if !Supports(permission.value, r.typ) then Failure(Unsupported)
    else Success(Allowed(s.engine, principal, RelationOf(permission.value), r))
  }

  function Require(s: System, actor: string, permission: Option<Permission>, r: Ref): Option<Error> {
    match Check(s, actor, permission, r)
    case Failure(e) => Some(e)
    case Success(allowed) => if allowed then None else Some(Forbidden)
  }

  const MANAGE := Some(PolicyManage)

  // ---------------------------------------------------------------- users, groups, roles

  function PlanCreateUser(s: System, actor: string, name: string): Result<Metadata, Error> {
    var trimmed := Slug.TrimSpace(name);
    match Require(s, actor, MANAGE, CONTROLLER)
    case Some(e) => Failure(e)
    case None =>
      if trimmed == "" then Failure(Rejected)
      else if Slug.SlugOf(trimmed) in s.meta.users || trimmed in s.meta.users.Values then Failure(Conflict)
      else Success(s.meta.(users := s.meta.users[Slug.SlugOf(trimmed) := trimmed]))
  }

  function PlanCreateGroup(s: System, actor: string, name: string): Result<Metadata, Error> {
    var trimmed := Slug.TrimSpace(name);
    match Require(s, actor, MANAGE, CONTROLLER)
    case Some(e) => Failure(e)
    case None =>
      if trimmed == "" then Failure(Rejected)
      else if Slug.SlugOf(trimmed) in s.meta.groups || trimmed in s.meta.groups.Values then Failure(Conflict)
      else Success(s.meta.(groups := s.meta.groups[Slug.SlugOf(trimmed) := trimmed]))
  }

  function PlanAddGroupMember(s: System, actor: string, group: string, user: string): Result<Metadata, Error> {
    match Require(s, actor, MANAGE, CONTROLLER)
    case Some(e) => Failure(e)
    case None =>
      if group !in s.meta.groups || user !in s.meta.users then Failure(NotFound)
      else Success(s.meta.(members := s.meta.members + {(group, user)}))
  }

  function PlanRemoveGroupMember(s: System, actor: string, group: string, user: string): Result<Metadata, Error> {
    match Require(s, actor, MANAGE, CONTROLLER)
    case Some(e) => Failure(e)
    case None =>
      if (group, user) !in s.meta.members then Failure(NotFound)
      else Success(s.meta.(members := s.meta.members - {(group, user)}))
  }

  /** The catalogued permissions of a list of names; none when the list is empty or a name is unknown. */
  function ParseAll(names: seq<string>): Option<seq<Permission>> {
    if |names| == 0 then None
    else
      match Lookup(names[|names| - 1], PERMISSIONS)
      case None => None
      case Some(p) =>
        if |names| == 1 then Some([p])
        else
          match ParseAll(names[..|names| - 1])
          case None => None
          case Some(front) => Some(front + [p])
  }

  /** A non-empty list of names of permissions. */
  ghost predicate NamesPermissions(names: seq<string>) {
    names != [] && forall name :: name in names ==> IsPermissionName(name)
  }

  ghost predicate IsPermissionName(name: string) {
    exists p: Permission :: PermissionName(p) == name
  }

  /** The permissions whose names are listed. */
  function NamedIn(names: seq<string>): set<Permission> {
    set p: Permission | PermissionName(p) in names
  }

  /** Parsing accepts exactly the non-empty lists of permission names, and then gives, place by place,
      the permission of each name. */
  lemma {:induction false} ParseAllReadsNames(names: seq<string>)
    ensures ParseAll(names).Some? <==> NamesPermissions(names)
    ensures ParseAll(names).Some? ==>
              var parsed := ParseAll(names).value;
              && |parsed| == |names| && (forall i :: 0 <= i < |names| ==> PermissionName(parsed[i]) == names[i])
              && Elements(parsed) == NamedIn(names)
  {
    hide PermissionName, Lookup;
    if names != [] {
      var front, last := names[..|names| - 1], names[|names| - 1];
      assert names == front + [last];
      LookupFinds(last, PERMISSIONS);
      forall p ensures p in PERMISSIONS { EveryPermissionIsCatalogued(p); }
      NamesPermissionsSplits(front, last);
      if front != [] {
        ParseAllReadsNames(front);
      }
      if ParseAll(names).Some? {
        PlaceByPlace(ParseAll(names).value, names);
      }
    }
  }

  lemma NamesPermissionsSplits(front: seq<string>, last: string)
    ensures NamesPermissions(front + [last]) <==> (front == [] || NamesPermissions(front)) && IsPermissionName(last)
  {
    hide PermissionName, IsPermissionName;
    assert last in front + [last];
  }

  lemma PlaceByPlace(parsed: seq<Permission>, names: seq<string>)
    requires |parsed| == |names| && forall i :: 0 <= i < |names| ==> PermissionName(parsed[i]) == names[i]
    ensures Elements(parsed) == NamedIn(names)
  {
    hide PermissionName;
    forall p ensures p in parsed <==> PermissionName(p) in names {
      if PermissionName(p) in names {
        var i :| 0 <= i < |names| && names[i] == PermissionName(p);
        PermissionNamesDistinct(p, parsed[i]);
      }
    }
  }

  predicate RoleNameTaken(m: Metadata, name: string) {
    exists id :: id in m.roles && m.roles[id].name == name
  }

  function PlanCreateRole(s: System, actor: string, name: string, description: string, permissions: seq<string>): Result<Metadata, Error> {
    match (Require(s, actor, MANAGE, CONTROLLER), ParseAll(permissions))
    case (Some(e), _) => Failure(e)
    case (None, None) => Failure(Invalid)
    case (None, Some(parsed)) =>
      if Slug.SlugOf(name) == "" then Failure(Rejected)
      else if Slug.SlugOf(name) in s.meta.roles || RoleNameTaken(s.meta, name) then Failure(Conflict)
      else Success(s.meta.(roles := s.meta.roles[Slug.SlugOf(name) := Role(name, description, Elements(parsed), 1, false)]))
  }

  /** Every binding of the role compiles under the proposed permissions. */
  predicate BindingsAccept(m: Metadata, role: string, permissions: set<Permission>) {
    forall id :: id in m.bindings && m.bindings[id].roleId == role ==> Compiles(m.bindings[id], permissions)
  }

  /** The permissions a role update would store, when its preview accepts it. */
  function PreviewAccepts(s: System, actor: string, role: string, expected: int, permissions: seq<string>): Result<seq<Permission>, Error> {
    match (Require(s, actor, MANAGE, CONTROLLER), ParseAll(permissions))
    case (Some(e), _) => Failure(e)
    case (None, None) => Failure(Invalid)
    case (None, Some(parsed)) =>
      if role !in s.meta.roles then Failure(NotFound)
      else if s.meta.roles[role].builtIn then Failure(Invalid)
      else if s.meta.roles[role].revision != expected then Failure(Conflict)
      else if !BindingsAccept(s.meta, role, Elements(parsed)) then Failure(Invalid)
      else Success(parsed)
  }

  function PlanUpdateRole(s: System, actor: string, role: string, expected: int, description: string, permissions: seq<string>): Result<Metadata, Error> {
    match PreviewAccepts(s, actor, role, expected, permissions)
    case Failure(e) => Failure(e)
    case Success(parsed) =>
      var current := s.meta.roles[role];
      var updated := current.(description := description, permissions := Elements(parsed), revision := current.revision + 1);
      var entry := AuditEntry(actor, role, current.permissions, Elements(parsed), current.revision + 1);
      Success(s.meta.(roles := s.meta.roles[role := updated], audit := s.meta.audit + [entry]))
  }

  // ---------------------------------------------------------------- bindings

  datatype SubjectType = UserSubject | GroupSubject | UnrecognisedSubject

  datatype BindingInput = BindingInput(subjectType: SubjectType, subjectId: string, roleId: string, scope: Ref, selector: Selector)

  /** The first error among the exact targets, in order: a missing row, or a target outside scope. */
  ghost function TargetsError(rs: Resources, targets: seq<Ref>, scope: Ref): Option<Error>
    requires Hierarchy(rs)
  {
    if targets == [] then None
    else
      match TargetsError(rs, targets[..|targets| - 1], scope)
      case Some(e) => Some(e)
      case None =>
        var last := targets[|targets| - 1];
        if last !in rs then Some(NotFound)
        else
          match WithinScope(rs, last, scope)
          case Failure(e) => Some(e)
          case Success(within) => if within then None else Some(Invalid)
  }

  ghost function SelectorError(m: Metadata, input: BindingInput): Option<Error>
    requires Hierarchy(m.resources)
  {
    match input.selector.match_
    case Exact =>
      if input.selector.resources.None? || input.selector.resources.value == [] then Some(Invalid)
      else TargetsError(m.resources, input.selector.resources.value, input.scope)
    case Scope => if input.selector.resources.Some? then Some(Invalid) else None
    case UnknownMatch => Some(Invalid)
  }

  ghost function ValidateBinding(m: Metadata, input: BindingInput): Option<Error>
    requires Hierarchy(m.resources)
  {
    if input.roleId !in m.roles then Some(NotFound)
    else if input.subjectType == UnrecognisedSubject then Some(Invalid)
    else if input.subjectType == UserSubject && input.subjectId !in m.users then Some(NotFound)
    else if input.subjectType == GroupSubject && input.subjectId !in m.groups then Some(NotFound)
    else if input.scope.typ != Controller && input.scope !in m.resources then Some(NotFound)
    else SelectorError(m, input)
  }

  function SubjectOf(input: BindingInput): Principal {
    if input.subjectType == GroupSubject then GroupPrincipal(input.subjectId) else UserPrincipal(input.subjectId)
  }

  function NewBinding(input: BindingInput, id: string): Binding {
    Binding(id, SubjectOf(input), input.roleId, input.scope, input.selector, false)
  }

  /** The uniqueness rule of the bindings table. */
  predicate Clashes(m: Metadata, b: Binding) {
    exists id :: id in m.bindings && m.bindings[id].subject == b.subject && m.bindings[id].roleId == b.roleId
                 && m.bindings[id].scope == b.scope && m.bindings[id].compatibility == b.compatibility
  }

  ghost function PlanCreateBinding(s: System, actor: string, input: BindingInput, newId: string): Result<Metadata, Error>
    requires Hierarchy(s.meta.resources)
  {
    match (ValidateBinding(s.meta, input), ManagementScope(s.meta.resources, input.scope))
    case (Some(e), _) => Failure(e)
    case (None, Failure(e)) => Failure(e)
    case (None, Success(managed)) =>
      match Require(s, actor, MANAGE, managed)
      case Some(e) => Failure(e)
      case None =>
        if Clashes(s.meta, NewBinding(input, newId)) then Failure(Conflict)
        else Success(s.meta.(bindings := s.meta.bindings[newId := NewBinding(input, newId)]))
  }

  ghost function PlanDeleteBinding(s: System, actor: string, id: string): Result<Metadata, Error>
    requires Hierarchy(s.meta.resources)
  {
    if id !in s.meta.bindings then Failure(NotFound)
    else
      match ManagementScope(s.meta.resources, s.meta.bindings[id].scope)
      case Failure(e) => Failure(e)
      case Success(managed) =>
        match Require(s, actor, MANAGE, managed)
        case Some(e) => Failure(e)
        case None => Success(s.meta.(bindings := s.meta.bindings - {id}))
  }

  // ---------------------------------------------------------------- legacy access

  datatype Access = ReadAccess | WriteAccess | AdminAccess | InvalidAccess

  function CompatibilityRole(access: Access): string {
    match access
    case ReadAccess => "model-reader"
    case WriteAccess => "model-writer"
    case AdminAccess => "model-admin"
    case InvalidAccess => ""
  }

  /** The access one level down; below read there is none. */
  function NextAccess(access: Access): Option<Access> {
    match access
    case AdminAccess => Some(WriteAccess)
    case WriteAccess => Some(ReadAccess)
    case _ => None
  }

  function ModelRef(model: string): Ref {
    Ref(Model, model)
  }

  predicate IsCompatibility(b: Binding, user: string, model: string) {
    b.subject == UserPrincipal(user) && b.scope == ModelRef(model) && b.compatibility
  }

  predicate HasCompatibility(m: Metadata, user: string, model: string) {
    exists id :: id in m.bindings && IsCompatibility(m.bindings[id], user, model)
  }

  /** The row a query for the compatibility binding of a user and model returns. */
  ghost function CompatibilityId(m: Metadata, user: string, model: string): string
    requires HasCompatibility(m, user, model)
    ensures CompatibilityId(m, user, model) in m.bindings
    ensures IsCompatibility(m.bindings[CompatibilityId(m, user, model)], user, model)
  {
    var id :| id in m.bindings && IsCompatibility(m.bindings[id], user, model);
    id
  }

  function LegacyBinding(id: string, user: string, model: string, role: string): Binding {
    Binding(id, UserPrincipal(user), role, ModelRef(model), Selector(Scope, None), true)
  }

  /** Replace the role of the compatibility binding, or insert one. */
  ghost function Upsert(m: Metadata, user: string, model: string, role: string, newId: string): Metadata {
    if HasCompatibility(m, user, model) then
      var id := CompatibilityId(m, user, model);
      m.(bindings := m.bindings[id := m.bindings[id].(roleId := role)])
    else m.(bindings := m.bindings[newId := LegacyBinding(newId, user, model, role)])
  }

  ghost function PlanGrantLegacy(s: System, actor: string, user: string, model: string, access: Access, newId: string): Result<Metadata, Error> {
    if access == InvalidAccess then Failure(Invalid)
    else
      match Require(s, actor, MANAGE, ModelRef(model))
      case Some(e) => Failure(e)
      case None =>
        if user !in s.meta.users || ModelRef(model) !in s.meta.resources then Failure(NotFound)
        else Success(Upsert(s.meta, user, model, CompatibilityRole(access), newId))
  }

  ghost function PlanRevokeLegacy(s: System, actor: string, user: string, model: string, access: Access): Result<Metadata, Error> {
    match Require(s, actor, MANAGE, ModelRef(model))
    case Some(e) => Failure(e)
    case None =>
      if !HasCompatibility(s.meta, user, model) then Failure(NotFound)
      else
        var id := CompatibilityId(s.meta, user, model);
        if access == InvalidAccess || s.meta.bindings[id].roleId != CompatibilityRole(access) then Failure(Invalid)
        else
          match NextAccess(access)
          case None => Success(s.meta.(bindings := s.meta.bindings - {id}))
          case Some(next) => Success(Upsert(s.meta, user, model, CompatibilityRole(next), id))
  }

  // ---------------------------------------------------------------- resources

  function ParentError(m: Metadata, typ: ResourceType, parent: Option<Ref>): Option<Error> {
    if typ == Controller then Some(Invalid)
    else if parent.None? then (if ParentRule(typ) != [] then Some(Invalid) else None)
    else if parent.value.typ !in ParentRule(typ) then Some(Invalid)
    else if parent.value.typ != Controller && parent.value !in m.resources then Some(NotFound)
    else None
  }

  /** The uniqueness rule of the resources table, beside its key. */
  predicate ResourceNameTaken(rs: Resources, typ: ResourceType, name: string) {
    exists r :: r in rs && r.typ == typ && rs[r].name == name
  }

  function PlanCreateResource(s: System, actor: string, typ: ResourceType, name: string, parent: Option<Ref>, newId: string): Result<Metadata, Error> {
    match ParentError(s.meta, typ, parent)
    case Some(e) => Failure(e)
    case None =>
      match Require(s, actor, CreatePermission(typ), if parent.Some? then parent.value else CONTROLLER)
      case Some(e) => Failure(e)
      case None =>
        if Ref(typ, newId) in s.meta.resources || ResourceNameTaken(s.meta.resources, typ, Slug.TrimSpace(name)) then Failure(Conflict)
        else Success(s.meta.(resources := s.meta.resources[Ref(typ, newId) := StoredResource(Slug.TrimSpace(name), parent)]))
  }

  predicate HasChildren(rs: Resources, r: Ref) {
    exists child :: child in rs && rs[child].parent == Some(r)
  }

  function PlanDeleteResource(s: System, actor: string, r: Ref): Result<Metadata, Error> {
    if r !in s.meta.resources then Failure(NotFound)
    else
      match Require(s, actor, DeletePermission(r.typ), r)
      case Some(e) => Failure(e)
      case None =>
        if HasChildren(s.meta.resources, r) then Failure(Conflict)
        else Success(s.meta.(resources := s.meta.resources - {r}))
  }

  // ---------------------------------------------------------------- synchronization and whole steps

  /** What interrupts a synchronization: nothing, a failing engine write, or a failure between the
      engine write and recording the projection. */
  datatype Fault = NoFault | WriteFails | RecordFails

  datatype Outcome = Outcome(after: System, error: Option<Error>)

  /** The engine after one atomic write of the difference between two projections: duplicate writes
      and missing deletes are ignored. */
  function EngineAfter(engine: set<Tuple>, synced: set<Tuple>, desired: set<Tuple>): set<Tuple> {
    (engine - (synced - desired)) + (desired - synced)
  }

  /** Recording the projection fails on a repeated row: some binding lists a target twice that it
      emits for. */
  ghost predicate Recordable(m: Metadata) {
    forall id :: id in m.bindings ==> !RepeatsTarget(m.bindings[id], PermissionsOf(m, m.bindings[id]))
  }

  /** One synchronization. An empty difference is not written, so it cannot fail to be. */
  ghost function Sync(s: System, fault: Fault): Outcome {
    var desired := Desired(s.meta);
    if !AllCompile(s.meta) || (fault == WriteFails && s.synced != desired) then Outcome(s, Some(SyncFailed))
    else
      var written := s.(engine := EngineAfter(s.engine, s.synced, desired));
      if fault == RecordFails || !Recordable(s.meta) then Outcome(written, Some(SyncFailed))
      else Outcome(written.(synced := desired), None)
  }

  datatype Op =
    | Resync
    | CreateUser(actor: string, name: string)
    | CreateGroup(actor: string, name: string)
    | AddGroupMember(actor: string, group: string, user: string)
    | RemoveGroupMember(actor: string, group: string, user: string)
    | CreateRole(actor: string, name: string, description: string, permissions: seq<string>)
    | UpdateRole(actor: string, role: string, expected: int, description: string, permissions: seq<string>)
    | CreateBinding(actor: string, input: BindingInput, newId: string)
    | DeleteBinding(actor: string, id: string)
    | GrantLegacy(actor: string, user: string, model: string, access: Access, newId: string)
    | RevokeLegacy(actor: string, user: string, model: string, access: Access)
    | CreateResource(actor: string, typ: ResourceType, name: string, parent: Option<Ref>, newId: string)
    | DeleteResource(actor: string, ref: Ref)

  ghost function Plan(s: System, op: Op): Result<Metadata, Error>
    requires Hierarchy(s.meta.resources)
  {
    match op
    case Resync => Success(s.meta)
    case CreateUser(actor, name) => PlanCreateUser(s, actor, name)
    case CreateGroup(actor, name) => PlanCreateGroup(s, actor, name)
    case AddGroupMember(actor, group, user) => PlanAddGroupMember(s, actor, group, user)
    case RemoveGroupMember(actor, group, user) => PlanRemoveGroupMember(s, actor, group, user)
    case CreateRole(actor, name, description, permissions) => PlanCreateRole(s, actor, name, description, permissions)
    case UpdateRole(actor, role, expected, description, permissions) => PlanUpdateRole(s, actor, role, expected, description, permissions)
    case CreateBinding(actor, input, newId) => PlanCreateBinding(s, actor, input, newId)
    case DeleteBinding(actor, id) => PlanDeleteBinding(s, actor, id)
    case GrantLegacy(actor, user, model, access, newId) => PlanGrantLegacy(s, actor, user, model, access, newId)
    case RevokeLegacy(actor, user, model, access) => PlanRevokeLegacy(s, actor, user, model, access)
    case CreateResource(actor, typ, name, parent, newId) => PlanCreateResource(s, actor, typ, name, parent, newId)
    case DeleteResource(actor, ref) => PlanDeleteResource(s, actor, ref)
  }

  predicate SkipsSync(op: Op) {
    op.CreateUser? || op.CreateGroup? || op.CreateRole?
  }

  /** One operation: refused with nothing changed, or its metadata stored and, unless the operation
      skips it, synchronized. The metadata stays stored when the synchronization fails. */
  ghost function Run(s: System, op: Op, fault: Fault): Outcome
    requires Hierarchy(s.meta.resources)
  {
    match Plan(s, op)
    case Failure(e) => Outcome(s, Some(e))
    case Success(m) => if SkipsSync(op) then Outcome(s.(meta := m), None) else Sync(s.(meta := m), fault)
  }
}
