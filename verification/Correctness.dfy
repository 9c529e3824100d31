/** The compiler is correct: evaluating model.fga over the projection of the metadata answers a
    check exactly as the bindings say. */
module Correctness {
  import opened Catalog
  import opened AuthModel
  import opened Compiler
  import opened Metadata

  /** A grant userset denotes exactly the users its binding covers. */
  lemma GrantDenotesCovered(m: Metadata, id: string, user: string)
    requires KeyedById(m) && id in m.bindings
    ensures Denotes(Desired(m), GrantSubjects(id), user) <==> Covers(m, m.bindings[id], user)
  {
    var b := m.bindings[id];
    forall group ensures IsMember(Desired(m), user, group) <==> (group, user) in m.members {
      DesiredByObject(m, MembershipTuple(group, user));
    }
    DesiredByObject(m, SubjectTuple(b));
    DesiredByObject(m, Tuple(User(user), Subject, Grant(id)));
    forall t | t in Desired(m) && t.obj == Grant(id) ensures t == SubjectTuple(b) {
      DesiredByObject(m, t);
    }
  }

  /** A binding picks what lies at or below a place where it applies the permission. */
  lemma SelectsBelowApplied(rs: Resources, b: Binding, p: Permission, r: Ref)
    ensures Selects(rs, b, p, r) <==> exists t :: Applies(b, p, t) && AtOrBelow(rs, r, t)
  {
    if Selects(rs, b, p, r) && b.selector.match_ == Exact {
      var t :| t in b.selector.resources.value && Supports(p, t.typ) && AtOrBelow(rs, r, t);
      assert Applies(b, p, t);
    } else if Selects(rs, b, p, r) {
      assert Applies(b, p, b.scope);
    }
  }

  /** Some binding applies `p` at `r` itself. */
  ghost predicate GrantsAt(m: Metadata, user: string, p: Permission, r: Ref) {
    exists id :: id in m.bindings && Covers(m, m.bindings[id], user) && p in PermissionsOf(m, m.bindings[id]) && Applies(m.bindings[id], p, r)
  }

  lemma AssignedIffGrantsAt(m: Metadata, user: string, p: Permission, r: Ref)
    requires KeyedById(m) && RelationAtScope(p, r.typ, Scope).Some?
    ensures Assigned(Desired(m), user, RelationAtScope(p, r.typ, Scope).value, r) <==> GrantsAt(m, user, p, r)
  {
    var relation := RelationAtScope(p, r.typ, Scope).value;
    RelationIsDefined(p, r.typ, Scope);
    if Assigned(Desired(m), user, relation, r) {
      var t :| t in Desired(m) && t.relation == relation && t.obj == Resource(r) && Denotes(Desired(m), t.user, user);
      DesiredByObject(m, t);
      var b := m.bindings[t.user.id];
      var q, target :| q in PermissionsOf(m, b) && EmittedFor(b, q, target, t);
      RelationDeterminesPermission(p, q, r.typ);
      GrantDenotesCovered(m, t.user.id, user);
    }
    if GrantsAt(m, user, p, r) {
      var id :| id in m.bindings && Covers(m, m.bindings[id], user) && p in PermissionsOf(m, m.bindings[id]) && Applies(m.bindings[id], p, r);
      var b := m.bindings[id];
      var t := GrantTuple(b, relation, r);
      assert EmittedFor(b, p, r, t);
      DesiredByObject(m, t);
      GrantDenotesCovered(m, id, user);
    }
  }

  /** A permission is granted on a resource at the resource itself or through its parent. */
  lemma GrantedHereOrAbove(m: Metadata, user: string, p: Permission, r: Ref)
    requires Granted(m, user, p, r)
    ensures GrantsAt(m, user, p, r) || (r in m.resources && m.resources[r].parent.Some? && Granted(m, user, p, m.resources[r].parent.value))
  {
    var id :| id in m.bindings && Grants(m, m.bindings[id], user, p, r);
    SelectsBelowApplied(m.resources, m.bindings[id], p, r);
    if r in m.resources && m.resources[r].parent.Some? {
      SelectsBelowApplied(m.resources, m.bindings[id], p, m.resources[r].parent.value);
    }
  }

  lemma GrantsAtIsGranted(m: Metadata, user: string, p: Permission, r: Ref)
    requires GrantsAt(m, user, p, r)
    ensures Granted(m, user, p, r)
  {
    var id :| id in m.bindings && Covers(m, m.bindings[id], user) && p in PermissionsOf(m, m.bindings[id]) && Applies(m.bindings[id], p, r);
    SelectsBelowApplied(m.resources, m.bindings[id], p, r);
    assert Grants(m, m.bindings[id], user, p, r);
  }

  lemma GrantedAboveIsGranted(m: Metadata, user: string, p: Permission, r: Ref)
    requires Hierarchy(m.resources) && r in m.resources && Granted(m, user, p, m.resources[r].parent.value)
    ensures Granted(m, user, p, r)
  {
    ParentRanksHigher(m.resources, r);
    var up := m.resources[r].parent.value;
    var id :| id in m.bindings && Grants(m, m.bindings[id], user, p, up);
    var b := m.bindings[id];
    SelectsBelowApplied(m.resources, b, p, up);
    SelectsBelowApplied(m.resources, b, p, r);
    assert Grants(m, b, user, p, r);
  }

  /** The induction: for every permission with a relation on the type of `r`, the evaluator over the
      projection and the meaning of the bindings agree. */
  lemma {:induction false} AllowedIffGranted(m: Metadata, user: string, p: Permission, r: Ref)
    requires KeyedById(m) && Hierarchy(m.resources) && Known(m.resources, r)
    requires RelationAtScope(p, r.typ, Scope).Some?
    ensures Allowed(Desired(m), user, RelationAtScope(p, r.typ, Scope).value, r) <==> Granted(m, user, p, r)
    decreases Rank(r.typ)
  {
    hide Granted, GrantsAt, Desired, Assigned, KeyedById, RelationAtScope;
    var relation := RelationAtScope(p, r.typ, Scope).value;
    RelationIsDefined(p, r.typ, Scope);
    AssignedIffGrantsAt(m, user, p, r);
    if Granted(m, user, p, r) {
      GrantedHereOrAbove(m, user, p, r);
    }
    if GrantsAt(m, user, p, r) {
      GrantsAtIsGranted(m, user, p, r);
    }
    if r in m.resources {
      ParentRanksHigher(m.resources, r);
      var up := m.resources[r].parent.value;
      InheritanceAgrees(p, r.typ, up.typ);
      AllowedIffGranted(m, user, p, up);
      if Granted(m, user, p, up) {
        GrantedAboveIsGranted(m, user, p, r);
      }
      DesiredByObject(m, ParentTuple(r, up));
      forall t | t in Desired(m) && t.relation == Parent && t.obj == Resource(r) && t.user.ResourceActor?
        ensures t.user.ref == up
      {
        DesiredByObject(m, t);
      }
    }
  }

  /** Compiler correctness: on every stored resource and the controller, a supported check over the
      projection allows exactly what some binding grants. */
  lemma CompilerCorrect(m: Metadata, user: string, p: Permission, r: Ref)
    requires KeyedById(m) && Hierarchy(m.resources) && Known(m.resources, r) && Supports(p, r.typ)
    ensures Allowed(Desired(m), user, RelationOf(p), r) <==> Granted(m, user, p, r)
  {
    AllowedIffGranted(m, user, p, r);
  }
}
