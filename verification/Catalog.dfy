/** The permission catalogue: resource types, permissions, and the constant tables over them. */
module Catalog {

  datatype Option<+T> = None | Some(value: T)

  datatype Result<+T, +E> = Success(value: T) | Failure(error: E)

  /** `Unrecognised` stands for every type string outside the published enumeration. */
  datatype ResourceType = Controller | Model | Application | Unit | Machine | CloudCredential | Unrecognised

  datatype Ref = Ref(typ: ResourceType, id: string)

  const CONTROLLER_ID := "juju"
  const CONTROLLER := Ref(Controller, CONTROLLER_ID)

  datatype Family = PolicyFamily | ModelFamily | ApplicationFamily | UnitFamily | MachineFamily | CloudCredentialFamily

  datatype Permission =
    | PolicyRead | PolicyManage
    | ModelRead | ModelCreate | ModelDelete
    | ApplicationRead | ApplicationCreate | ApplicationDelete | ApplicationConfigRead | ApplicationConfigWrite
    | UnitRead | UnitCreate | UnitDelete | UnitSsh
    | MachineRead | MachineCreate | MachineDelete | MachineSsh
    | CloudCredentialRead | CloudCredentialCreate | CloudCredentialDelete

  /** The relations model.fga names. `Qualified(p)` is the relation spelt like permission `p` with
      its dots and dashes turned into underscores, such as application_config_read. */
  datatype Relation = Member | Subject | Parent | Read | Delete | Ssh | ConfigRead | ConfigWrite | Qualified(permission: Permission)

  /** The part of a permission name before its first dot. */
  function FamilyOf(p: Permission): Family {
    match p
    case PolicyRead | PolicyManage => PolicyFamily
    case ModelRead | ModelCreate | ModelDelete => ModelFamily
    case ApplicationRead | ApplicationCreate | ApplicationDelete | ApplicationConfigRead | ApplicationConfigWrite => ApplicationFamily
    case UnitRead | UnitCreate | UnitDelete | UnitSsh => UnitFamily
    case MachineRead | MachineCreate | MachineDelete | MachineSsh => MachineFamily
    case CloudCredentialRead | CloudCredentialCreate | CloudCredentialDelete => CloudCredentialFamily
  }

  /** The catalogue's ResourceTypes column. */
  predicate Supports(p: Permission, typ: ResourceType) {
    match p
    case PolicyRead | PolicyManage => typ == Controller || typ == Model
    case ModelRead | ModelDelete => typ == Model
    case ModelCreate => typ == Controller
    case ApplicationRead | ApplicationDelete | ApplicationConfigRead | ApplicationConfigWrite => typ == Application
    case ApplicationCreate => typ == Model
    case UnitRead | UnitDelete | UnitSsh => typ == Unit
    case UnitCreate => typ == Application
    case MachineRead | MachineDelete | MachineSsh => typ == Machine
    case MachineCreate => typ == Model || typ == Application
    case CloudCredentialRead | CloudCredentialDelete => typ == CloudCredential
    case CloudCredentialCreate => typ == Controller
  }

  /** relationByPermission: the relation a check asks for. */
  function RelationOf(p: Permission): Relation {
    match p
    case ModelRead | ApplicationRead | UnitRead | MachineRead | CloudCredentialRead => Read
    case ModelDelete | ApplicationDelete | UnitDelete | MachineDelete | CloudCredentialDelete => Delete
    case ApplicationConfigRead => ConfigRead
    case ApplicationConfigWrite => ConfigWrite
    case UnitSsh | MachineSsh => Ssh
    case _ => Qualified(p)
  }

  function ParentRule(typ: ResourceType): seq<ResourceType> {
    match typ
    case Model | CloudCredential => [Controller]
    case Application => [Model]
    case Unit => [Application]
    case Machine => [Model, Application]
    case Controller | Unrecognised => []
  }

  /** Depth of a type in the containment graph. Every parent type lies strictly higher. */
  function Rank(typ: ResourceType): nat {
    match typ
    case Controller | Unrecognised => 0
    case Model | CloudCredential => 1
    case Application => 2
    case Unit | Machine => 3
  }

  function CreatePermission(typ: ResourceType): Option<Permission> {
    match typ
    case Model => Some(ModelCreate)
    case Application => Some(ApplicationCreate)
    case Unit => Some(UnitCreate)
    case Machine => Some(MachineCreate)
    case CloudCredential => Some(CloudCredentialCreate)
    case Controller | Unrecognised => None
  }

  function DeletePermission(typ: ResourceType): Option<Permission> {
    match typ
    case Model => Some(ModelDelete)
    case Application => Some(ApplicationDelete)
    case Unit => Some(UnitDelete)
    case Machine => Some(MachineDelete)
    case CloudCredential => Some(CloudCredentialDelete)
    case Controller | Unrecognised => None
  }

  /** A create permission applies to every type the new resource may hang from, so the
      authorization check of a creation always asks for a supported permission. */
  lemma CreatePermissionFitsParent(child: ResourceType, parent: ResourceType)
    requires parent in ParentRule(child)
    ensures CreatePermission(child).Some? && Supports(CreatePermission(child).value, parent)
    ensures DeletePermission(child).Some? && Supports(DeletePermission(child).value, child)
    ensures Rank(parent) < Rank(child)
  {
  }
}
