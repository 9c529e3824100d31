/** How permissions, relations and tuples are spelt as strings, and why no two are spelt alike. */
module Encoding {
  import opened Catalog
  import opened AuthModel

  // ---------------------------------------------------------------- names

  function PermissionName(p: Permission): string {
    match p
    case PolicyRead => "policy.read"
    case PolicyManage => "policy.manage"
    case ModelRead => "model.read"
    case ModelCreate => "model.create"
    case ModelDelete => "model.delete"
    case ApplicationRead => "application.read"
    case ApplicationCreate => "application.create"
    case ApplicationDelete => "application.delete"
    case ApplicationConfigRead => "application.config.read"
    case ApplicationConfigWrite => "application.config.write"
    case UnitRead => "unit.read"
    case UnitCreate => "unit.create"
    case UnitDelete => "unit.delete"
    case UnitSsh => "unit.ssh"
    case MachineRead => "machine.read"
    case MachineCreate => "machine.create"
    case MachineDelete => "machine.delete"
    case MachineSsh => "machine.ssh"
    case CloudCredentialRead => "cloud-credential.read"
    case CloudCredentialCreate => "cloud-credential.create"
    case CloudCredentialDelete => "cloud-credential.delete"
  }

  function FamilyName(f: Family): string {
    match f
    case PolicyFamily => "policy"
    case ModelFamily => "model"
    case ApplicationFamily => "application"
    case UnitFamily => "unit"
    case MachineFamily => "machine"
    case CloudCredentialFamily => "cloud-credential"
  }

  /** The relation names of model.fga. */
  function QualifiedName(p: Permission): string {
    match p
    case PolicyRead => "policy_read"
    case PolicyManage => "policy_manage"
    case ModelRead => "model_read"
    case ModelCreate => "model_create"
    case ModelDelete => "model_delete"
    case ApplicationRead => "application_read"
    case ApplicationCreate => "application_create"
    case ApplicationDelete => "application_delete"
    case ApplicationConfigRead => "application_config_read"
    case ApplicationConfigWrite => "application_config_write"
    case UnitRead => "unit_read"
    case UnitCreate => "unit_create"
    case UnitDelete => "unit_delete"
    case UnitSsh => "unit_ssh"
    case MachineRead => "machine_read"
    case MachineCreate => "machine_create"
    case MachineDelete => "machine_delete"
    case MachineSsh => "machine_ssh"
    case CloudCredentialRead => "cloud_credential_read"
    case CloudCredentialCreate => "cloud_credential_create"
    case CloudCredentialDelete => "cloud_credential_delete"
  }

  function RelationName(r: Relation): string {
    match r
    case Member => "member"
    case Subject => "subject"
    case Parent => "parent"
    case Read => "read"
    case Delete => "delete"
    case Ssh => "ssh"
    case ConfigRead => "config_read"
    case ConfigWrite => "config_write"
    case Qualified(p) => QualifiedName(p)
  }

  /** Every dot and dash becomes an underscore. */
  function Flatten(s: string): string {
    seq(|s|, i requires 0 <= i < |s| => if s[i] == '.' || s[i] == '-' then '_' else s[i])
  }

  lemma ShortNamesFlatten(p: Permission)
    requires FamilyOf(p) in {PolicyFamily, ModelFamily, UnitFamily}
    ensures Flatten(PermissionName(p)) == QualifiedName(p)
  {
    match p
    case PolicyRead => assert Flatten("policy.read") == "policy_read";
    case PolicyManage => assert Flatten("policy.manage") == "policy_manage";
    case ModelRead => assert Flatten("model.read") == "model_read";
    case ModelCreate => assert Flatten("model.create") == "model_create";
    case ModelDelete => assert Flatten("model.delete") == "model_delete";
    case UnitRead => assert Flatten("unit.read") == "unit_read";
    case UnitCreate => assert Flatten("unit.create") == "unit_create";
    case UnitDelete => assert Flatten("unit.delete") == "unit_delete";
    case UnitSsh => assert Flatten("unit.ssh") == "unit_ssh";
    case _ =>
  }

  lemma MachineNamesFlatten(p: Permission)
    requires FamilyOf(p) in {MachineFamily}
    ensures Flatten(PermissionName(p)) == QualifiedName(p)
  {
  }

  lemma ApplicationNamesFlatten(p: Permission)
    requires FamilyOf(p) in {ApplicationFamily}
    ensures Flatten(PermissionName(p)) == QualifiedName(p)
  {
    match p
    case ApplicationRead => assert Flatten("application.read") == "application_read";
    case ApplicationCreate => assert Flatten("application.create") == "application_create";
    case ApplicationDelete => assert Flatten("application.delete") == "application_delete";
    case ApplicationConfigRead => assert Flatten("application.config.read") == "application_config_read";
    case ApplicationConfigWrite => assert Flatten("application.config.write") == "application_config_write";
    case _ =>
  }

  lemma CredentialNamesFlatten(p: Permission)
    requires FamilyOf(p) in {CloudCredentialFamily}
    ensures Flatten(PermissionName(p)) == QualifiedName(p)
  {
    match p
    case CloudCredentialRead => assert Flatten("cloud-credential.read") == "cloud_credential_read";
    case CloudCredentialCreate => assert Flatten("cloud-credential.create") == "cloud_credential_create";
    case CloudCredentialDelete => assert Flatten("cloud-credential.delete") == "cloud_credential_delete";
    case _ =>
  }

  /** The relation the compiler builds by replacing characters of the permission name is the one
      model.fga spells out. */
  lemma QualifiedIsFlattened(p: Permission)
    ensures Flatten(PermissionName(p)) == RelationName(Qualified(p))
  {
    match FamilyOf(p)
    case MachineFamily => MachineNamesFlatten(p);
    case ApplicationFamily => ApplicationNamesFlatten(p);
    case CloudCredentialFamily => CredentialNamesFlatten(p);
    case _ => ShortNamesFlatten(p);
  }

  ghost predicate FirstSegment(segment: string, name: string) {
    && |segment| < |name| && name[|segment|] == '.'
    && forall i :: 0 <= i < |segment| ==> name[i] == segment[i] && segment[i] != '.'
  }

  lemma ShortFamilyIsFirstSegment(p: Permission)
    requires FamilyOf(p) !in {ApplicationFamily, CloudCredentialFamily}
    ensures FirstSegment(FamilyName(FamilyOf(p)), PermissionName(p))
  {
  }

  /** The text before the first dot of a permission name is its family. */
  lemma FamilyIsFirstSegment(p: Permission)
    ensures FirstSegment(FamilyName(FamilyOf(p)), PermissionName(p))
  {
    if FamilyOf(p) !in {ApplicationFamily, CloudCredentialFamily} {
      ShortFamilyIsFirstSegment(p);
    }
  }

  /** Length and fourth-last character, which tell permission names apart. */
  function NameSignature(p: Permission): (nat, char) {
    match p
    case PolicyRead => (11, 'r')
    case PolicyManage => (13, 'n')
    case ModelRead => (10, 'r')
    case ModelCreate => (12, 'e')
    case ModelDelete => (12, 'l')
    case ApplicationRead => (16, 'r')
    case ApplicationCreate => (18, 'e')
    case ApplicationDelete => (18, 'l')
    case ApplicationConfigRead => (23, 'r')
    case ApplicationConfigWrite => (24, 'r')
    case UnitRead => (9, 'r')
    case UnitCreate => (11, 'e')
    case UnitDelete => (11, 'l')
    case UnitSsh => (8, '.')
    case MachineRead => (12, 'r')
    case MachineCreate => (14, 'e')
    case MachineDelete => (14, 'l')
    case MachineSsh => (11, '.')
    case CloudCredentialRead => (21, 'r')
    case CloudCredentialCreate => (23, 'e')
    case CloudCredentialDelete => (23, 'l')
  }

  lemma NameSignatureIsRead(p: Permission)
    ensures |PermissionName(p)| == NameSignature(p).0
    ensures PermissionName(p)[|PermissionName(p)| - 4] == NameSignature(p).1
  {
  }

  lemma PermissionNamesDistinct(p: Permission, q: Permission)
    requires PermissionName(p) == PermissionName(q)
    ensures p == q
  {
    NameSignatureIsRead(p);
    NameSignatureIsRead(q);
  }

  /** Length and sixth-last character, which tell relation names apart. */
  function RelationSignature(r: Relation): (nat, char) {
    match r
    case Member => (6, 'm')
    case Subject => (7, 'u')
    case Parent => (6, 'p')
    case Read => (4, ' ')
    case Delete => (6, 'd')
    case Ssh => (3, ' ')
    case ConfigRead => (11, 'g')
    case ConfigWrite => (12, '_')
    case Qualified(p) =>
      (match p
      case PolicyRead => (11, 'y')
      case PolicyManage => (13, 'm')
      case ModelRead => (10, 'l')
      case ModelCreate => (12, 'c')
      case ModelDelete => (12, 'd')
      case ApplicationRead => (16, 'n')
      case ApplicationCreate => (18, 'c')
      case ApplicationDelete => (18, 'd')
      case ApplicationConfigRead => (23, 'g')
      case ApplicationConfigWrite => (24, '_')
      case UnitRead => (9, 't')
      case UnitCreate => (11, 'c')
      case UnitDelete => (11, 'd')
      case UnitSsh => (8, 'i')
      case MachineRead => (12, 'e')
      case MachineCreate => (14, 'c')
      case MachineDelete => (14, 'd')
      case MachineSsh => (11, 'n')
      case CloudCredentialRead => (21, 'l')
      case CloudCredentialCreate => (23, 'c')
      case CloudCredentialDelete => (23, 'd'))
  }

  lemma RelationSignatureIsRead(r: Relation)
    ensures |RelationName(r)| == RelationSignature(r).0
    ensures |RelationName(r)| >= 6 ==> RelationName(r)[|RelationName(r)| - 6] == RelationSignature(r).1
  {
  }

  lemma RelationNamesDistinct(r: Relation, s: Relation)
    requires RelationName(r) == RelationName(s)
    ensures r == s
  {
    RelationSignatureIsRead(r);
    RelationSignatureIsRead(s);
  }

  // ---------------------------------------------------------------- the catalogue by name

  const PERMISSIONS: seq<Permission> := [PolicyRead, PolicyManage, ModelRead, ModelCreate, ModelDelete, ApplicationRead, ApplicationCreate, ApplicationDelete, ApplicationConfigRead, ApplicationConfigWrite, UnitRead, UnitCreate, UnitDelete, UnitSsh, MachineRead, MachineCreate, MachineDelete, MachineSsh, CloudCredentialRead, CloudCredentialCreate, CloudCredentialDelete]

  /** The catalogue lookup by permission name, a search of the list. */
  function Lookup(name: string, catalogue: seq<Permission>): Option<Permission> {
    if catalogue == [] then None
    else if PermissionName(catalogue[0]) == name then Some(catalogue[0])
    else Lookup(name, catalogue[1..])
  }

  lemma {:induction false} LookupFinds(name: string, catalogue: seq<Permission>)
    ensures match Lookup(name, catalogue)
            case Some(p) => p in catalogue && PermissionName(p) == name
            case None => forall p :: p in catalogue ==> PermissionName(p) != name
  {
    if catalogue != [] {
      LookupFinds(name, catalogue[1..]);
    }
  }

  lemma EveryPermissionIsCatalogued(p: Permission)
    ensures p in PERMISSIONS
  {
  }

  /** Looking a name up finds the permission of that name, and nothing when there is none. */
  lemma LookupIsInverse(name: string, p: Permission)
    ensures Lookup(name, PERMISSIONS) == Some(p) <==> name == PermissionName(p)
  {
    LookupFinds(name, PERMISSIONS);
    EveryPermissionIsCatalogued(p);
    hide PermissionName, Lookup;
    if name == PermissionName(p) && Lookup(name, PERMISSIONS).Some? {
      PermissionNamesDistinct(p, Lookup(name, PERMISSIONS).value);
    }
  }

  // ---------------------------------------------------------------- tuples

  /** The type prefixes of objects; dashes of type names become underscores. */
  function TypeName(typ: ResourceType): string {
    match typ
    case Controller => "controller"
    case Model => "model"
    case Application => "application"
    case Unit => "unit"
    case Machine => "machine"
    case CloudCredential => "cloud_credential"
    case Unrecognised => ""
  }

  lemma FamilyFlattens(typ: ResourceType)
    requires CreatePermission(typ).Some?
    ensures TypeName(typ) == Flatten(FamilyName(FamilyOf(CreatePermission(typ).value)))
  {
    hide PermissionName;
    match typ
    case Model => assert Flatten("model") == "model";
    case Application => assert Flatten("application") == "application";
    case Unit => assert Flatten("unit") == "unit";
    case Machine => assert Flatten("machine") == "machine";
    case CloudCredential => assert Flatten("cloud-credential") == "cloud_credential";
    case _ =>
  }

  lemma ShortLifecycle(typ: ResourceType)
    requires typ in {Model, Unit, Machine}
    ensures PermissionName(CreatePermission(typ).value) == FamilyName(FamilyOf(CreatePermission(typ).value)) + ".create"
    ensures PermissionName(DeletePermission(typ).value) == FamilyName(FamilyOf(CreatePermission(typ).value)) + ".delete"
  {
  }

  lemma ApplicationLifecycle()
    ensures PermissionName(ApplicationCreate) == FamilyName(ApplicationFamily) + ".create"
    ensures PermissionName(ApplicationDelete) == FamilyName(ApplicationFamily) + ".delete"
  {
  }

  lemma CredentialLifecycle()
    ensures PermissionName(CloudCredentialCreate) == FamilyName(CloudCredentialFamily) + ".create"
    ensures PermissionName(CloudCredentialDelete) == FamilyName(CloudCredentialFamily) + ".delete"
  {
  }

  /** The permissions that guard creating and deleting a resource are those of the type's own family,
      named for it. */
  lemma LifecycleNames(typ: ResourceType)
    requires CreatePermission(typ).Some? || DeletePermission(typ).Some?
    ensures CreatePermission(typ).Some? && DeletePermission(typ).Some?
    ensures var family := FamilyName(FamilyOf(CreatePermission(typ).value));
            && TypeName(typ) == Flatten(family)
            && PermissionName(CreatePermission(typ).value) == family + ".create"
            && PermissionName(DeletePermission(typ).value) == family + ".delete"
  {
    hide PermissionName, FamilyName, TypeName, Flatten;
    FamilyFlattens(typ);
    match typ
    case Application => ApplicationLifecycle();
    case CloudCredential => CredentialLifecycle();
    case _ => ShortLifecycle(typ);
  }

  function RefString(r: Ref): string {
    TypeName(r.typ) + ":" + r.id
  }

  function ActorString(a: Actor): string {
    match a
    case User(id) => "user" + ":" + id
    case GroupMembers(id) => "group" + ":" + id + "#" + "member"
    case GrantSubjects(id) => "grant" + ":" + id + "#" + "subject"
    case ResourceActor(ref) => RefString(ref)
  }

  function ObjectString(o: Object): string {
    match o
    case Group(id) => "group" + ":" + id
    case Grant(id) => "grant" + ":" + id
    case Resource(ref) => RefString(ref)
  }

  /** The key a tuple is stored and compared under. */
  function Key(t: Tuple): string {
    ActorString(t.user) + "|" + RelationName(t.relation) + "|" + ObjectString(t.obj)
  }

  /** An identifier free of the three separators. */
  predicate Clean(id: string) {
    ':' !in id && '#' !in id && '|' !in id
  }

  predicate CleanActor(a: Actor) {
    match a
    case User(id) => Clean(id)
    case GroupMembers(id) => Clean(id)
    case GrantSubjects(id) => Clean(id)
    case ResourceActor(ref) => Clean(ref.id)
  }

  predicate CleanObject(o: Object) {
    match o
    case Group(id) => Clean(id)
    case Grant(id) => Clean(id)
    case Resource(ref) => Clean(ref.id)
  }

  predicate CleanTuple(t: Tuple) {
    CleanActor(t.user) && CleanObject(t.obj)
  }

  /** A string splits in one way only at the first occurrence of a character. */
  lemma SplitsOnce(a: string, b: string, c: string, d: string, separator: char)
    requires separator !in a && separator !in c
    requires a + [separator] + b == c + [separator] + d
    ensures a == c && b == d
  {
    var s, t := a + [separator] + b, c + [separator] + d;
    assert s[|a|] == separator && t[|c|] == separator;
    assert forall i :: 0 <= i < |a| ==> s[i] == a[i];
    assert forall i :: 0 <= i < |c| ==> t[i] == c[i];
    assert |a| == |c|;
    assert a == s[..|a|] && c == t[..|c|];
    assert b == s[|a| + 1..] && d == t[|c| + 1..];
  }

  /** The text after the type prefix of an actor. */
  function ActorTail(a: Actor): string {
    match a
    case User(id) => id
    case GroupMembers(id) => id + "#" + "member"
    case GrantSubjects(id) => id + "#" + "subject"
    case ResourceActor(ref) => ref.id
  }

  function ActorPrefix(a: Actor): string {
    match a
    case User(_) => "user"
    case GroupMembers(_) => "group"
    case GrantSubjects(_) => "grant"
    case ResourceActor(ref) => TypeName(ref.typ)
  }

  function ObjectPrefix(o: Object): string {
    match o
    case Group(_) => "group"
    case Grant(_) => "grant"
    case Resource(ref) => TypeName(ref.typ)
  }

  lemma TypeNamesDistinct(a: ResourceType, b: ResourceType)
    requires TypeName(a) == TypeName(b)
    ensures a == b
  {
  }

  lemma NoColonInPrefix(a: Actor)
    ensures ':' !in ActorPrefix(a)
  {
  }

  lemma ActorStringSplits(a: Actor)
    ensures ActorString(a) == ActorPrefix(a) + [':'] + ActorTail(a)
  {
  }

  lemma ActorPrefixTellsKind(a: Actor, b: Actor)
    requires ActorPrefix(a) == ActorPrefix(b)
    ensures a.User? <==> b.User?
    ensures a.GroupMembers? <==> b.GroupMembers?
    ensures a.GrantSubjects? <==> b.GrantSubjects?
    ensures a.ResourceActor? ==> b.ResourceActor? && a.ref.typ == b.ref.typ
  {
  }

  lemma ActorStringsDistinct(a: Actor, b: Actor)
    requires CleanActor(a) && CleanActor(b) && ActorString(a) == ActorString(b)
    ensures a == b
  {
    ActorStringSplits(a);
    ActorStringSplits(b);
    NoColonInPrefix(a);
    NoColonInPrefix(b);
    SplitsOnce(ActorPrefix(a), ActorTail(a), ActorPrefix(b), ActorTail(b), ':');
    ActorPrefixTellsKind(a, b);
    if a.GroupMembers? {
      SplitsOnce(a.id, "member", b.id, "member", '#');
    } else if a.GrantSubjects? {
      SplitsOnce(a.id, "subject", b.id, "subject", '#');
    }
  }

  lemma ObjectStringsDistinct(a: Object, b: Object)
    requires CleanObject(a) && CleanObject(b) && ObjectString(a) == ObjectString(b)
    ensures a == b
  {
    var x := if a.Resource? then a.ref.id else a.id;
    var y := if b.Resource? then b.ref.id else b.id;
    SplitsOnce(ObjectPrefix(a), x, ObjectPrefix(b), y, ':');
    assert |ObjectPrefix(a)| > 2 ==> ObjectPrefix(a)[2] == ObjectPrefix(b)[2];
    if a.Resource? && b.Resource? {
      TypeNamesDistinct(a.ref.typ, b.ref.typ);
    }
  }

  /** Likewise at the last occurrence. */
  lemma SplitsOnceFromEnd(a: string, b: string, c: string, d: string, separator: char)
    requires separator !in b && separator !in d
    requires a + [separator] + b == c + [separator] + d
    ensures a == c && b == d
  {
    var s, t := a + [separator] + b, c + [separator] + d;
    assert s[|a|] == separator && t[|c|] == separator;
    assert forall i :: |a| < i < |s| ==> s[i] == b[i - |a| - 1];
    assert forall i :: |c| < i < |t| ==> t[i] == d[i - |c| - 1];
    assert |a| == |c|;
    assert a == s[..|a|] && c == t[..|c|];
    assert b == s[|a| + 1..] && d == t[|c| + 1..];
  }

  lemma SplitsInThree(a: string, b: string, c: string, x: string, y: string, z: string)
    requires '|' !in a && '|' !in x && '|' !in c && '|' !in z
    requires a + "|" + b + "|" + c == x + "|" + y + "|" + z
    ensures a == x && b == y && c == z
  {
    assert a + "|" + b + "|" + c == a + ['|'] + (b + ['|'] + c);
    assert x + "|" + y + "|" + z == x + ['|'] + (y + ['|'] + z);
    SplitsOnce(a, b + ['|'] + c, x, y + ['|'] + z, '|');
    SplitsOnceFromEnd(b, c, y, z, '|');
  }

  lemma NoBarInPrefix(typ: ResourceType)
    ensures '|' !in TypeName(typ)
  {
  }

  lemma NoBarInActor(a: Actor)
    requires CleanActor(a)
    ensures '|' !in ActorString(a)
  {
    if a.ResourceActor? {
      NoBarInPrefix(a.ref.typ);
    }
  }

  lemma NoBarInObject(o: Object)
    requires CleanObject(o)
    ensures '|' !in ObjectString(o)
  {
    if o.Resource? {
      NoBarInPrefix(o.ref.typ);
    }
  }

  /** Two tuples over clean identifiers have the same key only if they are the same tuple. */
  lemma KeysDistinct(t: Tuple, u: Tuple)
    requires CleanTuple(t) && CleanTuple(u) && Key(t) == Key(u)
    ensures t == u
  {
    NoBarInActor(t.user);
    NoBarInActor(u.user);
    NoBarInObject(t.obj);
    NoBarInObject(u.obj);
    SplitsInThree(ActorString(t.user), RelationName(t.relation), ObjectString(t.obj),
                  ActorString(u.user), RelationName(u.relation), ObjectString(u.obj));
    ActorStringsDistinct(t.user, u.user);
    RelationNamesDistinct(t.relation, u.relation);
    ObjectStringsDistinct(t.obj, u.obj);
  }
}
