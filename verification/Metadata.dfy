/** The management metadata, the containment forest it holds, the access it means, and the tuples
    it should be projected to. */
module Metadata {
  import opened Catalog
  import opened AuthModel
  import opened Compiler
  import opened Lists

  datatype Role = Role(name: string, description: string, permissions: set<Permission>, revision: nat, builtIn: bool)

  datatype StoredResource = StoredResource(name: string, parent: Option<Ref>)

  /** An audited role update: the permissions it replaced, those it wrote, the revision it made. */
  datatype AuditEntry = AuditEntry(actor: string, role: string, old_: set<Permission>, new_: set<Permission>, revision: nat)

  type Resources = map<Ref, StoredResource>

  datatype Metadata = Metadata(
    users: map<string, string>,
    groups: map<string, string>,
    members: set<(string, string)>,
    roles: map<string, Role>,
    bindings: map<string, Binding>,
    resources: Resources,
    audit: seq<AuditEntry>)

  // ---------------------------------------------------------------- the containment forest

  /** Every stored resource hangs from a parent that is stored or is the controller, and whose type
      the catalogue allows. */
  ghost predicate Hierarchy(rs: Resources) {
    forall r :: r in rs ==>
      && rs[r].parent.Some?
      && rs[r].parent.value.typ in ParentRule(r.typ)
      && (rs[r].parent.value == CONTROLLER || rs[r].parent.value in rs)
  }

  ghost predicate Known(rs: Resources, r: Ref) {
    r in rs || r == CONTROLLER
  }

  lemma ParentRulesAgree(child: ResourceType, parent: ResourceType)
    ensures parent in ParentRule(child) <==> parent in ParentTypes(child)
    ensures parent in ParentRule(child) ==> Rank(parent) < Rank(child)
  {
  }

  /** In the stored forest parents rank strictly higher; a stored resource is never a controller. */
  lemma ParentRanksHigher(rs: Resources, r: Ref)
    requires Hierarchy(rs) && r in rs
    ensures Rank(rs[r].parent.value.typ) < Rank(r.typ)
    ensures rs[r].parent.value.typ in ParentTypes(r.typ)
    ensures r.typ != Controller && Known(rs, rs[r].parent.value)
  {
    ParentRulesAgree(r.typ, rs[r].parent.value.typ);
  }

  /** `r` is `top` or lies below it: climbing parents from `r` meets `top`. */
  ghost predicate AtOrBelow(rs: Resources, r: Ref, top: Ref)
    decreases Rank(r.typ)
  {
    || r == top
    || (r in rs && rs[r].parent.Some? && Rank(rs[r].parent.value.typ) < Rank(r.typ) && AtOrBelow(rs, rs[r].parent.value, top))
  }

  /** A path of parent tuples, from a resource up to an ancestor. */
  ghost predicate ParentPath(tuples: set<Tuple>, path: seq<Ref>) {
    path != [] && forall i :: 0 <= i < |path| - 1 ==> ParentTuple(path[i], path[i + 1]) in tuples
  }

  function ParentTuples(rs: Resources): set<Tuple> {
    set r | r in rs && rs[r].parent.Some? :: ParentTuple(r, rs[r].parent.value)
  }

  ghost predicate LeadsTo(tuples: set<Tuple>, path: seq<Ref>, from: Ref, to: Ref) {
    ParentPath(tuples, path) && path[0] == from && path[|path| - 1] == to
  }

  lemma LongerPath(tuples: set<Tuple>, path: seq<Ref>, r: Ref, up: Ref, top: Ref)
    requires LeadsTo(tuples, path, up, top) && ParentTuple(r, up) in tuples
    ensures LeadsTo(tuples, [r] + path, r, top)
  {
  }

  lemma ShorterPath(tuples: set<Tuple>, path: seq<Ref>, r: Ref, top: Ref)
    requires LeadsTo(tuples, path, r, top) && r != top
    ensures |path| > 1 && ParentTuple(r, path[1]) in tuples
    ensures LeadsTo(tuples, path[1..], path[1], top)
  {
  }

  /** Climbing is reachability over the parent tuples of the projection. */
  lemma {:induction false} AtOrBelowIsReachability(rs: Resources, r: Ref, top: Ref)
    requires Hierarchy(rs) && Known(rs, r)
    ensures AtOrBelow(rs, r, top) <==> exists path :: LeadsTo(ParentTuples(rs), path, r, top)
    decreases Rank(r.typ)
  {
    var tuples := ParentTuples(rs);
    if r == top {
      assert LeadsTo(tuples, [r], r, top);
    } else {
      if r in rs {
        var up := rs[r].parent.value;
        ParentRanksHigher(rs, r);
        AtOrBelowIsReachability(rs, up, top);
        if AtOrBelow(rs, r, top) {
          var path :| LeadsTo(tuples, path, up, top);
          assert ParentTuple(r, up) in tuples;
          LongerPath(tuples, path, r, up, top);
        }
      }
      if path :| LeadsTo(tuples, path, r, top) {
        ShorterPath(tuples, path, r, top);
        assert path[1] == rs[r].parent.value;
      }
    }
  }

  /** At-or-below is a partial order on stored resources and the controller. */
  lemma {:induction false} AtOrBelowTransitive(rs: Resources, r: Ref, mid: Ref, top: Ref)
    requires AtOrBelow(rs, r, mid) && AtOrBelow(rs, mid, top)
    ensures AtOrBelow(rs, r, top)
    decreases Rank(r.typ)
  {
    if r != mid {
      AtOrBelowTransitive(rs, rs[r].parent.value, mid, top);
    }
  }

  lemma {:induction false} AtOrBelowRanks(rs: Resources, r: Ref, top: Ref)
    requires AtOrBelow(rs, r, top)
    ensures r == top || Rank(top.typ) < Rank(r.typ)
    decreases Rank(r.typ)
  {
    if r != top {
      AtOrBelowRanks(rs, rs[r].parent.value, top);
    }
  }

  lemma AtOrBelowAntisymmetric(rs: Resources, r: Ref, top: Ref)
    requires AtOrBelow(rs, r, top) && AtOrBelow(rs, top, r)
    ensures r == top
  {
    AtOrBelowRanks(rs, r, top);
    AtOrBelowRanks(rs, top, r);
  }

  /** Every ancestor of a stored resource is itself stored or the controller. */
  lemma {:induction false} AncestorsAreKnown(rs: Resources, r: Ref, top: Ref)
    requires Hierarchy(rs) && Known(rs, r) && AtOrBelow(rs, r, top)
    ensures Known(rs, top)
    decreases Rank(r.typ)
  {
    if r != top {
      AncestorsAreKnown(rs, rs[r].parent.value, top);
    }
  }

  /** Every stored resource is below the controller: the forest is one tree. */
  lemma {:induction false} AllBelowController(rs: Resources, r: Ref)
    requires Hierarchy(rs) && Known(rs, r)
    ensures AtOrBelow(rs, r, CONTROLLER)
    decreases Rank(r.typ)
  {
    if r != CONTROLLER {
      ParentRanksHigher(rs, r);
      AllBelowController(rs, rs[r].parent.value);
    }
  }

  // ---------------------------------------------------------------- what the metadata means

  function PermissionsOf(m: Metadata, b: Binding): set<Permission> {
    if b.roleId in m.roles then m.roles[b.roleId].permissions else {}
  }

  /** The binding's subject is the user, or a group the user is in. */
  ghost predicate Covers(m: Metadata, b: Binding, user: string) {
    match b.subject
    case UserPrincipal(id) => id == user
    case GroupPrincipal(group) => (group, user) in m.members
  }

  /** The selector picks `r` for permission `p`: `r` lies at or below the scope, or at or below some
      listed resource the permission is catalogued for. */
  ghost predicate Selects(rs: Resources, b: Binding, p: Permission, r: Ref) {
    match b.selector.match_
    case Scope => AtOrBelow(rs, r, b.scope)
    case Exact =>
      && b.selector.resources.Some?
      && exists t :: t in b.selector.resources.value && Supports(p, t.typ) && AtOrBelow(rs, r, t)
    case UnknownMatch => false
  }

  /** Binding `b` gives whomever it covers permission `p` on `r`. */
  ghost predicate Gives(m: Metadata, b: Binding, p: Permission, r: Ref) {
    p in PermissionsOf(m, b) && Selects(m.resources, b, p, r)
  }

  /** Binding `b` by itself gives `user` permission `p` on `r`. */
  ghost predicate Grants(m: Metadata, b: Binding, user: string, p: Permission, r: Ref) {
    Covers(m, b, user) && Gives(m, b, p, r)
  }

  /** The source-level meaning of a decision: some binding gives it. */
  ghost predicate Granted(m: Metadata, user: string, p: Permission, r: Ref) {
    exists id :: id in m.bindings && Grants(m, m.bindings[id], user, p, r)
  }

  // ---------------------------------------------------------------- what it is projected to

  function MembershipTuples(m: Metadata): set<Tuple> {
    set gm | gm in m.members :: MembershipTuple(gm.0, gm.1)
  }

  function GrantTuples(b: Binding, permissions: set<Permission>): set<Tuple> {
    set p, r | p in permissions && r in Targets(b) && Applies(b, p, r) && RelationAtScope(p, r.typ, Scope).Some?
      :: GrantTuple(b, RelationAtScope(p, r.typ, Scope).value, r)
  }

  function TuplesOf(m: Metadata, b: Binding): set<Tuple> {
    GrantTuples(b, PermissionsOf(m, b)) + {SubjectTuple(b)}
  }

  function BindingTuples(m: Metadata): set<Tuple> {
    set id, t | id in m.bindings && t in TuplesOf(m, m.bindings[id]) :: t
  }

  function Desired(m: Metadata): set<Tuple> {
    ParentTuples(m.resources) + MembershipTuples(m) + BindingTuples(m)
  }

  /** The role of the binding is stored and the binding compiles under it. */
  predicate BindingCompiles(m: Metadata, b: Binding) {
    b.roleId in m.roles && Compiles(b, m.roles[b.roleId].permissions)
  }

  predicate AllCompile(m: Metadata) {
    forall id :: id in m.bindings ==> BindingCompiles(m, m.bindings[id])
  }

  ghost predicate KeyedById(m: Metadata) {
    forall id :: id in m.bindings ==> m.bindings[id].id == id
  }

  lemma GrantTuplesAreEmitted(b: Binding, permissions: set<Permission>, t: Tuple)
    ensures t in GrantTuples(b, permissions) <==> Emitted(b, permissions, t)
  {
    if Emitted(b, permissions, t) {
      var p, r :| p in permissions && EmittedFor(b, p, r, t);
      AppliesAtTargets(b, p, r);
    }
    if t in GrantTuples(b, permissions) {
      var p, r :| p in permissions && r in Targets(b) && Applies(b, p, r) && RelationAtScope(p, r.typ, Scope).Some?
                  && t == GrantTuple(b, RelationAtScope(p, r.typ, Scope).value, r);
      assert EmittedFor(b, p, r, t);
    }
  }

  /** Membership in the projection, by the kind of object. */
  lemma DesiredByObject(m: Metadata, t: Tuple)
    requires KeyedById(m)
    ensures t.obj.Group? ==> (t in Desired(m) <==> t in MembershipTuples(m))
    ensures t.obj.Grant? ==> (t in Desired(m) <==> t.obj.id in m.bindings && t == SubjectTuple(m.bindings[t.obj.id]))
    ensures t.obj.Resource? && t.user.ResourceActor? ==> (t in Desired(m) <==> t in ParentTuples(m.resources))
    ensures t.obj.Resource? && !t.user.ResourceActor? ==>
              (t in Desired(m) <==> t.user.GrantSubjects? && t.user.id in m.bindings &&
                                    Emitted(m.bindings[t.user.id], PermissionsOf(m, m.bindings[t.user.id]), t))
  {
    if t in BindingTuples(m) {
      var id :| id in m.bindings && t in TuplesOf(m, m.bindings[id]);
      GrantTuplesAreEmitted(m.bindings[id], PermissionsOf(m, m.bindings[id]), t);
    }
    if t.user.GrantSubjects? && t.user.id in m.bindings {
      var b := m.bindings[t.user.id];
      GrantTuplesAreEmitted(b, PermissionsOf(m, b), t);
      assert t in GrantTuples(b, PermissionsOf(m, b)) ==> t in TuplesOf(m, b);
    }
    if t.obj.Grant? && t.obj.id in m.bindings && t == SubjectTuple(m.bindings[t.obj.id]) {
      assert t in TuplesOf(m, m.bindings[t.obj.id]);
    }
  }
}
