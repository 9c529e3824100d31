/** The authorization model of model.fga: tuples, the relation table, and what a check means. */
module AuthModel {
  import opened Catalog

  /** The user field of a tuple: user:id, group:id#member, grant:id#subject, or a resource object. */
  datatype Actor = User(id: string) | GroupMembers(id: string) | GrantSubjects(id: string) | ResourceActor(ref: Ref)

  datatype Object = Group(id: string) | Grant(id: string) | Resource(ref: Ref)

  datatype Tuple = Tuple(user: Actor, relation: Relation, obj: Object)

  /** The types model.fga admits in `define parent: [...]`. */
  function ParentTypes(typ: ResourceType): set<ResourceType> {
    match typ
    case Model | CloudCredential => {Controller}
    case Application => {Model}
    case Unit => {Application}
    case Machine => {Model, Application}
    case Controller | Unrecognised => {}
  }

  /** A permission relation as model.fga defines it: not at all, by direct assignment only, or by
      direct assignment or a relation of the parent. */
  datatype Definition = Undefined | Direct | DirectOrParent(inherited: Relation)

  function ModelDefinition(relation: Relation): Definition {
    match relation
    case Read => DirectOrParent(Qualified(ModelRead))
    case Delete => DirectOrParent(Qualified(ModelDelete))
    case Qualified(p) =>
      if p in {ApplicationRead, ApplicationCreate, ApplicationDelete, ApplicationConfigRead, ApplicationConfigWrite,
               UnitRead, UnitCreate, UnitDelete, UnitSsh, MachineRead, MachineCreate, MachineDelete, MachineSsh,
               PolicyRead, PolicyManage}
      then DirectOrParent(relation) else Undefined
    case _ => Undefined
  }

  function ApplicationDefinition(relation: Relation): Definition {
    match relation
    case Read => DirectOrParent(Qualified(ApplicationRead))
    case Delete => DirectOrParent(Qualified(ApplicationDelete))
    case ConfigRead => DirectOrParent(Qualified(ApplicationConfigRead))
    case ConfigWrite => DirectOrParent(Qualified(ApplicationConfigWrite))
    case Qualified(p) =>
      if p in {UnitRead, UnitCreate, UnitDelete, UnitSsh, MachineRead, MachineCreate, MachineDelete, MachineSsh}
      then DirectOrParent(relation) else Undefined
    case _ => Undefined
  }

  /** The permission relations of model.fga, type by type. */
  function Define(typ: ResourceType, relation: Relation): Definition {
    match typ
    case Controller => if relation.Qualified? then Direct else Undefined
    case Model => ModelDefinition(relation)
    case Application => ApplicationDefinition(relation)
    case Unit =>
      (match relation
       case Read => DirectOrParent(Qualified(UnitRead))
       case Delete => DirectOrParent(Qualified(UnitDelete))
       case Ssh => DirectOrParent(Qualified(UnitSsh))
       case _ => Undefined)
    case Machine =>
      (match relation
       case Read => DirectOrParent(Qualified(MachineRead))
       case Delete => DirectOrParent(Qualified(MachineDelete))
       case Ssh => DirectOrParent(Qualified(MachineSsh))
       case _ => Undefined)
    case CloudCredential =>
      (match relation
       case Read => DirectOrParent(Qualified(CloudCredentialRead))
       case Delete => DirectOrParent(Qualified(CloudCredentialDelete))
       case _ => Undefined)
    case Unrecognised => Undefined
  }

  /** The type restrictions of model.fga: which user a relation of an object admits. */
  predicate WellTyped(t: Tuple) {
    match t.obj
    case Group(_) => t.relation == Member && t.user.User?
    case Grant(_) => t.relation == Subject && (t.user.User? || t.user.GroupMembers?)
    case Resource(ref) =>
      if t.relation == Parent then t.user.ResourceActor? && t.user.ref.typ in ParentTypes(ref.typ)
      else !Define(ref.typ, t.relation).Undefined? && !t.user.ResourceActor?
  }

  predicate IsMember(tuples: set<Tuple>, user: string, group: string) {
    Tuple(User(user), Member, Group(group)) in tuples
  }

  predicate IsSubject(tuples: set<Tuple>, user: string, grant: string) {
    || Tuple(User(user), Subject, Grant(grant)) in tuples
    || exists t :: t in tuples && t.obj == Grant(grant) && t.relation == Subject &&
                   t.user.GroupMembers? && IsMember(tuples, user, t.user.id)
  }

  /** Does the user field `actor` denote `user`, expanding usersets through `tuples`? */
  predicate Denotes(tuples: set<Tuple>, actor: Actor, user: string) {
    match actor
    case User(id) => id == user
    case GroupMembers(group) => IsMember(tuples, user, group)
    case GrantSubjects(grant) => IsSubject(tuples, user, grant)
    case ResourceActor(_) => false
  }

  predicate Assigned(tuples: set<Tuple>, user: string, relation: Relation, ref: Ref) {
    exists t :: t in tuples && t.relation == relation && t.obj == Resource(ref) && Denotes(tuples, t.user, user)
  }

  /** What a check answers: `relation` holds of `user` on `ref` by an assignment, or by the relation
      its definition inherits holding on a parent. Terminates because parents rank strictly higher. */
  predicate Allowed(tuples: set<Tuple>, user: string, relation: Relation, ref: Ref)
    decreases Rank(ref.typ)
  {
    match Define(ref.typ, relation)
    case Undefined => false
    case Direct => Assigned(tuples, user, relation, ref)
    case DirectOrParent(inherited) =>
      || Assigned(tuples, user, relation, ref)
      || exists t :: t in tuples && t.relation == Parent && t.obj == Resource(ref) && t.user.ResourceActor? &&
                     t.user.ref.typ in ParentTypes(ref.typ) && Allowed(tuples, user, inherited, t.user.ref)
  }
}
