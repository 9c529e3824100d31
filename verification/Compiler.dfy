/** Translation of role bindings into relation tuples. */
module Compiler {
  import opened Catalog
  import opened AuthModel
  import opened Lists

  datatype Principal = UserPrincipal(id: string) | GroupPrincipal(id: string)

  datatype Match = Scope | Exact | UnknownMatch

  datatype Selector = Selector(match_: Match, resources: Option<seq<Ref>>)

  datatype Binding = Binding(id: string, subject: Principal, roleId: string, scope: Ref, selector: Selector, compatibility: bool)

  function SubjectTuple(b: Binding): Tuple {
    Tuple(match b.subject case UserPrincipal(id) => User(id) case GroupPrincipal(id) => GroupMembers(id), Subject, Grant(b.id))
  }

  function MembershipTuple(group: string, user: string): Tuple {
    Tuple(User(user), Member, Group(group))
  }

  function ParentTuple(ref: Ref, parent: Ref): Tuple {
    Tuple(ResourceActor(parent), Parent, Resource(ref))
  }

  function RelationAtScope(p: Permission, target: ResourceType, how: Match): Option<Relation> {
    if Supports(p, target) then Some(RelationOf(p))
    else if how == Exact then None
    else
      match target
      case Controller => Some(Qualified(p))
      case Model =>
        if FamilyOf(p) == ApplicationFamily || FamilyOf(p) == UnitFamily || FamilyOf(p) == MachineFamily || FamilyOf(p) == PolicyFamily then Some(Qualified(p)) else None
      case Application =>
        if FamilyOf(p) == UnitFamily || FamilyOf(p) == MachineFamily then Some(Qualified(p)) else None
      case _ => None
  }

  // ---------------------------------------------------------------- the compiler against the model

  lemma InheritsFromController(p: Permission, child: ResourceType)
    requires child in {Model, CloudCredential} && RelationAtScope(p, child, Scope).Some?
    ensures RelationAtScope(p, Controller, Scope).Some?
    ensures Define(child, RelationAtScope(p, child, Scope).value)
            == DirectOrParent(RelationAtScope(p, Controller, Scope).value)
  {
  }

  lemma ApplicationInheritsFromModel(p: Permission, child: ResourceType)
    requires child == Application && RelationAtScope(p, child, Scope).Some?
    ensures RelationAtScope(p, Model, Scope).Some?
    ensures Define(child, RelationAtScope(p, child, Scope).value)
            == DirectOrParent(RelationAtScope(p, Model, Scope).value)
  {
  }

  lemma MachineInheritsFromModel(p: Permission, child: ResourceType)
    requires child == Machine && RelationAtScope(p, child, Scope).Some?
    ensures RelationAtScope(p, Model, Scope).Some?
    ensures Define(child, RelationAtScope(p, child, Scope).value)
            == DirectOrParent(RelationAtScope(p, Model, Scope).value)
  {
  }

  lemma InheritsFromApplication(p: Permission, child: ResourceType)
    requires child in {Unit, Machine} && RelationAtScope(p, child, Scope).Some?
    ensures RelationAtScope(p, Application, Scope).Some?
    ensures Define(child, RelationAtScope(p, child, Scope).value)
            == DirectOrParent(RelationAtScope(p, Application, Scope).value)
  {
  }

  /** Whenever a permission has a relation on a child type, the relation model.fga inherits for it
      is exactly the permission's relation on the parent type. */
  lemma InheritanceAgrees(p: Permission, child: ResourceType, parent: ResourceType)
    requires parent in ParentTypes(child)
    requires RelationAtScope(p, child, Scope).Some?
    ensures RelationAtScope(p, parent, Scope).Some?
    ensures Define(child, RelationAtScope(p, child, Scope).value)
            == DirectOrParent(RelationAtScope(p, parent, Scope).value)
  {
    hide RelationAtScope, Define;
    match (child, parent)
    case (_, Controller) => InheritsFromController(p, child);
    case (Application, _) => ApplicationInheritsFromModel(p, child);
    case (_, Model) => MachineInheritsFromModel(p, child);
    case _ => InheritsFromApplication(p, child);
  }

  /** Reading a relation back: the permission a relation of a type stands for. */
  function PermissionOf(target: ResourceType, relation: Relation): Permission {
    match relation
    case Qualified(p) => p
    case Read =>
      (match target
       case Model => ModelRead
       case Application => ApplicationRead
       case Unit => UnitRead
       case Machine => MachineRead
       case _ => CloudCredentialRead)
    case Delete =>
      (match target
       case Model => ModelDelete
       case Application => ApplicationDelete
       case Unit => UnitDelete
       case Machine => MachineDelete
       case _ => CloudCredentialDelete)
    case Ssh => if target == Unit then UnitSsh else MachineSsh
    case ConfigRead => ApplicationConfigRead
    case _ => ApplicationConfigWrite
  }

  lemma SupportedReadsBack(p: Permission, target: ResourceType)
    requires Supports(p, target)
    ensures PermissionOf(target, RelationOf(p)) == p
  {
  }

  lemma RelationReadsBack(p: Permission, target: ResourceType)
    requires RelationAtScope(p, target, Scope).Some?
    ensures PermissionOf(target, RelationAtScope(p, target, Scope).value) == p
  {
    hide Supports, RelationOf;
    if Supports(p, target) {
      SupportedReadsBack(p, target);
    }
  }

  /** On any one type, two permissions never share a relation. */
  lemma RelationDeterminesPermission(p: Permission, q: Permission, target: ResourceType)
    requires RelationAtScope(p, target, Scope).Some?
    requires RelationAtScope(p, target, Scope) == RelationAtScope(q, target, Scope)
    ensures p == q
  {
    RelationReadsBack(p, target);
    RelationReadsBack(q, target);
  }

  /** Every relation the compiler picks, and every relation a supported check asks for, is defined
      by model.fga for that type, and is a permission relation. */
  lemma RelationIsDefined(p: Permission, target: ResourceType, how: Match)
    requires RelationAtScope(p, target, how).Some?
    ensures !Define(target, RelationAtScope(p, target, how).value).Undefined?
    ensures RelationAtScope(p, target, how).value !in {Member, Subject, Parent}
    ensures RelationAtScope(p, target, how) == RelationAtScope(p, target, Scope)
    ensures Supports(p, target) ==> RelationAtScope(p, target, how) == Some(RelationOf(p))
  {
  }

  /** The selector mode matters only where a permission is not supported. */
  lemma RelationIgnoresMatch(p: Permission, target: ResourceType, how: Match)
    requires how == Exact ==> Supports(p, target)
    ensures RelationAtScope(p, target, how) == RelationAtScope(p, target, Scope)
  {
  }

  // ---------------------------------------------------------------- the tuples of a binding

  function Targets(b: Binding): seq<Ref> {
    match b.selector.match_
    case Scope => [b.scope]
    case Exact => if b.selector.resources.Some? then b.selector.resources.value else []
    case UnknownMatch => []
  }

  /** An exact selector passes over the targets a permission does not apply to. */
  predicate Emits(b: Binding, p: Permission, target: Ref) {
    b.selector.match_ == Exact ==> Supports(p, target.typ)
  }

  function GrantTuple(b: Binding, relation: Relation, target: Ref): Tuple {
    Tuple(GrantSubjects(b.id), relation, Resource(target))
  }

  /** The tuples of one permission, target by target. */
  function Row(b: Binding, p: Permission, targets: seq<Ref>): Option<seq<Tuple>> {
    if targets == [] then Some([])
    else
      var last := targets[|targets| - 1];
      match Row(b, p, targets[..|targets| - 1])
      case None => None
      case Some(front) =>
        if !Emits(b, p, last) then Some(front)
        else
          match RelationAtScope(p, last.typ, b.selector.match_)
          case None => None
          case Some(relation) => Some(front + [GrantTuple(b, relation, last)])
  }

  /** The tuples of a list of permissions; each permission must match some target. */
  function Rows(b: Binding, permissions: seq<Permission>): Option<seq<Tuple>> {
    if permissions == [] then Some([])
    else
      var n := |permissions| - 1;
      match (Rows(b, permissions[..n]), Row(b, permissions[n], Targets(b)))
      case (Some(front), Some(row)) => if row == [] then None else Some(front + row)
      case _ => None
  }

  /** The whole translation, with its two selector errors. */
  function TupleList(b: Binding, permissions: seq<Permission>): Option<seq<Tuple>> {
    if b.selector.match_ == UnknownMatch || (b.selector.match_ == Exact && Targets(b) == []) then None
    else Rows(b, permissions)
  }

  /** Fails exactly on the bindings that do not compile; otherwise lists one tuple for each permission
      at each place the binding applies it, and nothing else. */
  method PermissionTuples(b: Binding, permissions: seq<Permission>) returns (result: Option<seq<Tuple>>)
    ensures result == TupleList(b, permissions)
    ensures Translates(b, permissions, result)
  {
    hide Translates, Row, Rows, RelationAtScope, GrantTuple, Supports;
    TupleListContents(b, permissions);
    EmptyRows(b);
    var targets: seq<Ref>;
    match b.selector.match_ {
      case Scope => targets := [b.scope];
      case Exact =>
        if b.selector.resources.None? || |b.selector.resources.value| == 0 {
          return None;
        }
        targets := b.selector.resources.value;
      case UnknownMatch => return None;
    }
    var tuples: seq<Tuple> := [];
    for i := 0 to |permissions|
      invariant Rows(b, permissions[..i]) == Some(tuples)
    {
      var p := permissions[i];
      ghost var before := tuples;
      var matched := false;
      RowsStep(b, permissions, i);
      for j := 0 to |targets|
        invariant Row(b, p, targets[..j]).Some?
        invariant tuples == before + Row(b, p, targets[..j]).value
        invariant matched <==> Row(b, p, targets[..j]).value != []
      {
        RowStep(b, p, targets, j);
        if b.selector.match_ == Exact && !Supports(p, targets[j].typ) {
          continue;
        }
        var relation := RelationAtScope(p, targets[j].typ, b.selector.match_);
        if relation.None? {
          RowFails(b, p, targets, j + 1);
          RowsFail(b, permissions, i + 1);
          return None;
        }
        tuples := tuples + [GrantTuple(b, relation.value, targets[j])];
        matched := true;
      }
      assert targets[..|targets|] == targets;
      if !matched {
        RowsFail(b, permissions, i + 1);
        return None;
      }
    }
    assert permissions[..|permissions|] == permissions;
    result := Some(tuples);
  }

  lemma EmptyRows(b: Binding)
    ensures forall p :: Row(b, p, []) == Some([])
    ensures Rows(b, []) == Some([])
  {
  }

  lemma RowStep(b: Binding, p: Permission, targets: seq<Ref>, j: nat)
    requires j < |targets|
    ensures Row(b, p, targets[..j + 1]) ==
            match Row(b, p, targets[..j])
            case None => None
            case Some(front) =>
              if !Emits(b, p, targets[j]) then Some(front)
              else
                match RelationAtScope(p, targets[j].typ, b.selector.match_)
                case None => None
                case Some(relation) => Some(front + [GrantTuple(b, relation, targets[j])])
  {
    assert targets[..j + 1][..j] == targets[..j];
  }

  lemma RowsStep(b: Binding, permissions: seq<Permission>, i: nat)
    requires i < |permissions|
    ensures Rows(b, permissions[..i + 1]) ==
            match (Rows(b, permissions[..i]), Row(b, permissions[i], Targets(b)))
            case (Some(front), Some(row)) => if row == [] then None else Some(front + row)
            case _ => None
  {
    assert permissions[..i + 1][..i] == permissions[..i];
  }

  /** A row or a list of rows that fails on a prefix fails altogether. */
  lemma {:induction false} RowFails(b: Binding, p: Permission, targets: seq<Ref>, n: nat)
    requires n <= |targets| && Row(b, p, targets[..n]).None?
    ensures Row(b, p, targets).None?
  {
    if n == |targets| {
      assert targets[..n] == targets;
    } else {
      assert targets[..|targets| - 1][..n] == targets[..n];
      RowFails(b, p, targets[..|targets| - 1], n);
    }
  }

  lemma {:induction false} RowsFail(b: Binding, permissions: seq<Permission>, n: nat)
    requires n <= |permissions| && Rows(b, permissions[..n]).None?
    ensures Rows(b, permissions).None?
  {
    if n == |permissions| {
      assert permissions[..n] == permissions;
    } else {
      assert permissions[..|permissions| - 1][..n] == permissions[..n];
      RowsFail(b, permissions[..|permissions| - 1], n);
    }
  }

  // ---------------------------------------------------------------- what the list contains

  /** Where a binding applies a permission: at its scope, or at every listed resource the permission
      is catalogued for. */
  predicate Applies(b: Binding, p: Permission, target: Ref) {
    match b.selector.match_
    case Scope => target == b.scope
    case Exact => b.selector.resources.Some? && target in b.selector.resources.value && Supports(p, target.typ)
    case UnknownMatch => false
  }

  lemma AppliesAtTargets(b: Binding, p: Permission, target: Ref)
    ensures Applies(b, p, target) <==> target in Targets(b) && Emits(b, p, target)
  {
  }

  /** The selector is one the compiler knows, and every permission of the role has a relation on the
      scope, or some listed resource it is catalogued for. */
  predicate Compiles(b: Binding, permissions: set<Permission>) {
    match b.selector.match_
    case Scope => forall p :: p in permissions ==> RelationAtScope(p, b.scope.typ, Scope).Some?
    case Exact =>
      && b.selector.resources.Some? && b.selector.resources.value != []
      && forall p :: p in permissions ==> exists t :: t in b.selector.resources.value && Supports(p, t.typ)
    case UnknownMatch => false
  }

  /** `t` is the tuple binding `b` emits for permission `p` at `target`. */
  ghost predicate EmittedFor(b: Binding, p: Permission, target: Ref, t: Tuple) {
    && Applies(b, p, target)
    && RelationAtScope(p, target.typ, Scope).Some?
    && t == GrantTuple(b, RelationAtScope(p, target.typ, Scope).value, target)
  }

  ghost predicate Emitted(b: Binding, permissions: set<Permission>, t: Tuple) {
    exists p, target :: p in permissions && EmittedFor(b, p, target, t)
  }

  /** `result` is what becomes of the binding: nothing if it does not compile, and otherwise one tuple
      for each permission at each place the binding applies it, and no other. */
  ghost predicate Translates(b: Binding, permissions: seq<Permission>, result: Option<seq<Tuple>>) {
    && (result.Some? <==> Compiles(b, Elements(permissions)))
    && (result.Some? ==> forall t :: t in result.value <==> Emitted(b, Elements(permissions), t))
  }

  ghost predicate RowCompiles(b: Binding, p: Permission, targets: seq<Ref>) {
    forall t :: t in targets && Emits(b, p, t) ==> RelationAtScope(p, t.typ, Scope).Some?
  }

  /** `t` is emitted for `p` at one of `targets`. */
  ghost predicate RowHas(b: Binding, p: Permission, targets: seq<Ref>, t: Tuple) {
    exists r :: r in targets && Emits(b, p, r) && RelationAtScope(p, r.typ, Scope).Some?
                && t == GrantTuple(b, RelationAtScope(p, r.typ, Scope).value, r)
  }

  lemma RowHasSplits(b: Binding, p: Permission, front: seq<Ref>, last: Ref, t: Tuple)
    ensures RowHas(b, p, front + [last], t) <==> RowHas(b, p, front, t) || RowHas(b, p, [last], t)
  {
  }

  lemma RowHasOne(b: Binding, p: Permission, last: Ref, t: Tuple)
    ensures RowHas(b, p, [last], t) <==>
            Emits(b, p, last) && RelationAtScope(p, last.typ, Scope).Some? && t == GrantTuple(b, RelationAtScope(p, last.typ, Scope).value, last)
  {
    assert last in [last];
  }

  lemma NothingHas(b: Binding, p: Permission)
    ensures forall t :: !RowHas(b, p, [], t)
  {
  }

  lemma {:induction false} RowContents(b: Binding, p: Permission, targets: seq<Ref>)
    ensures Row(b, p, targets).Some? <==> RowCompiles(b, p, targets)
    ensures Row(b, p, targets).Some? ==> forall t :: t in Row(b, p, targets).value <==> RowHas(b, p, targets, t)
  {
    hide RelationAtScope, Supports, RowHas, GrantTuple;
    if targets == [] {
      assert forall t :: !RowHas(b, p, targets, t) by { NothingHas(b, p); }
    } else {
      var front, last := targets[..|targets| - 1], targets[|targets| - 1];
      if Emits(b, p, last) {
        RelationIgnoresMatch(p, last.typ, b.selector.match_);
      }
      RowContents(b, p, front);
      assert targets == front + [last];
      if Row(b, p, targets).Some? {
        forall t ensures t in Row(b, p, targets).value <==> RowHas(b, p, targets, t) {
          RowHasSplits(b, p, front, last, t);
          RowHasOne(b, p, last, t);
        }
      }
    }
  }

  /** `p` is emitted at some target that is listed twice. */
  ghost predicate EmitsTwice(b: Binding, p: Permission, targets: seq<Ref>) {
    exists i, j :: 0 <= i < j < |targets| && targets[i] == targets[j] && Emits(b, p, targets[i])
  }

  lemma EmitsTwiceSplits(b: Binding, p: Permission, front: seq<Ref>, last: Ref)
    ensures EmitsTwice(b, p, front + [last]) <==> EmitsTwice(b, p, front) || (Emits(b, p, last) && last in front)
  {
    hide Emits;
    var targets := front + [last];
    if EmitsTwice(b, p, front) {
      var i, j :| 0 <= i < j < |front| && front[i] == front[j] && Emits(b, p, front[i]);
      assert targets[i] == front[i] && targets[j] == front[j];
    }
    if Emits(b, p, last) && last in front {
      var i :| 0 <= i < |front| && front[i] == last;
      assert targets[i] == front[i] && targets[|front|] == last;
    }
    if EmitsTwice(b, p, targets) {
      var i, j :| 0 <= i < j < |targets| && targets[i] == targets[j] && Emits(b, p, targets[i]);
      assert targets[i] == front[i] && targets[j] == if j < |front| then front[j] else last;
    }
  }

  /** A row repeats a tuple exactly when it emits at a repeated target. */
  lemma {:induction false} RowDistinct(b: Binding, p: Permission, targets: seq<Ref>)
    requires Row(b, p, targets).Some?
    ensures Distinct(Row(b, p, targets).value) <==> !EmitsTwice(b, p, targets)
  {
    if targets != [] {
      var front, last := targets[..|targets| - 1], targets[|targets| - 1];
      var row := Row(b, p, front).value;
      RowDistinct(b, p, front);
      RowContents(b, p, front);
      assert targets == front + [last];
      EmitsTwiceSplits(b, p, front, last);
      if Emits(b, p, last) {
        var t := GrantTuple(b, RelationAtScope(p, last.typ, b.selector.match_).value, last);
        RelationIsDefined(p, last.typ, b.selector.match_);
        DistinctAppend(row, [t]);
        assert last in front ==> RowHas(b, p, front, t);
      }
    }
  }

  lemma {:induction false} RowsContents(b: Binding, permissions: seq<Permission>)
    ensures Rows(b, permissions).Some? <==>
            forall p :: p in permissions ==> RowCompiles(b, p, Targets(b)) && exists r :: r in Targets(b) && Emits(b, p, r)
    ensures Rows(b, permissions).Some? ==> forall t ::
              t in Rows(b, permissions).value <==> Emitted(b, Elements(permissions), t)
  {
    if permissions != [] {
      var n := |permissions| - 1;
      var front, p := permissions[..n], permissions[n];
      RowsContents(b, front);
      RowContents(b, p, Targets(b));
      assert permissions == front + [p];
      if Row(b, p, Targets(b)).Some? && RowCompiles(b, p, Targets(b)) {
        var row := Row(b, p, Targets(b)).value;
        if row != [] {
          assert row[0] in row;
        }
        forall r | r in Targets(b) && Emits(b, p, r) ensures row != [] {
          assert GrantTuple(b, RelationAtScope(p, r.typ, Scope).value, r) in row;
        }
        if Rows(b, permissions).Some? {
          var all := Rows(b, permissions).value;
          assert all == Rows(b, front).value + row;
          forall t ensures t in all <==> Emitted(b, Elements(permissions), t) {
            EmittedSplits(b, front, p, t);
            RowEmits(b, p, t);
          }
        }
      }
    }
  }

  lemma RowEmits(b: Binding, p: Permission, t: Tuple)
    requires Row(b, p, Targets(b)).Some?
    ensures t in Row(b, p, Targets(b)).value <==> exists r :: EmittedFor(b, p, r, t)
  {
    RowContents(b, p, Targets(b));
    if RowHas(b, p, Targets(b), t) {
      var r :| r in Targets(b) && Emits(b, p, r) && RelationAtScope(p, r.typ, Scope).Some?
               && t == GrantTuple(b, RelationAtScope(p, r.typ, Scope).value, r);
      assert EmittedFor(b, p, r, t);
    }
  }

  lemma EmittedSplits(b: Binding, front: seq<Permission>, p: Permission, t: Tuple)
    ensures Emitted(b, Elements(front + [p]), t) <==>
            Emitted(b, Elements(front), t) || exists r :: EmittedFor(b, p, r, t)
  {
  }

  /** The compiler succeeds exactly on the bindings that compile, and then emits, for each
      permission and each target it is emitted for, one tuple, and nothing else. */
  lemma TupleListContents(b: Binding, permissions: seq<Permission>)
    ensures Translates(b, permissions, TupleList(b, permissions))
  {
    RowsContents(b, permissions);
    forall p ensures p in permissions <==> p in Elements(permissions) {}
    if b.selector.match_ == Scope {
      assert Targets(b) == [b.scope] && b.scope in Targets(b);
      assert forall p :: RowCompiles(b, p, Targets(b)) <==> RelationAtScope(p, b.scope.typ, Scope).Some?;
    } else if b.selector.match_ == Exact {
      assert forall p :: RowCompiles(b, p, Targets(b));
      assert forall p, r :: Emits(b, p, r) <==> Supports(p, r.typ);
    }
  }

  /** An exact list names a resource twice that a permission of the role is catalogued for. */
  ghost predicate RepeatsTarget(b: Binding, permissions: set<Permission>) {
    && b.selector.match_ == Exact && b.selector.resources.Some?
    && var listed := b.selector.resources.value;
       exists i, j, p :: 0 <= i < j < |listed| && listed[i] == listed[j] && p in permissions && Supports(p, listed[i].typ)
  }

  lemma RowsAreApart(b: Binding, permissions: seq<Permission>, p: Permission, t: Tuple)
    requires Emitted(b, Elements(permissions), t) && exists r :: EmittedFor(b, p, r, t)
    ensures p in permissions
  {
    var q, target :| q in Elements(permissions) && EmittedFor(b, q, target, t);
    var r :| EmittedFor(b, p, r, t);
    RelationDeterminesPermission(p, q, r.typ);
  }

  /** The emitted list is free of repetitions exactly when the permission list is and no target it
      emits for is listed twice. */
  lemma {:induction false} RowsDistinct(b: Binding, permissions: seq<Permission>)
    requires Rows(b, permissions).Some?
    ensures Distinct(Rows(b, permissions).value) <==>
            Distinct(permissions) && !RepeatsTarget(b, Elements(permissions))
  {
    if permissions != [] {
      var n := |permissions| - 1;
      var front, p := permissions[..n], permissions[n];
      var row, rows := Row(b, p, Targets(b)).value, Rows(b, front).value;
      RowsDistinct(b, front);
      RowDistinct(b, p, Targets(b));
      RowContents(b, p, Targets(b));
      RowsContents(b, front);
      RowsContents(b, permissions);
      DistinctAppend(rows, row);
      assert permissions == front + [p];
      DistinctAppend(front, [p]);
      assert Elements(permissions) == Elements(front) + {p};
      if p in front {
        assert row[0] in row;
        var r :| r in Targets(b) && Emits(b, p, r) && row[0] == GrantTuple(b, RelationAtScope(p, r.typ, Scope).value, r);
        assert EmittedFor(b, p, r, row[0]);
        assert row[0] in rows;
      } else {
        forall t | t in rows ensures t !in row {
          if t in row {
            var r :| r in Targets(b) && Emits(b, p, r) && t == GrantTuple(b, RelationAtScope(p, r.typ, Scope).value, r);
            assert EmittedFor(b, p, r, t);
            RowsAreApart(b, front, p, t);
          }
        }
      }
    }
  }

  /** What the compiler emits is well typed for model.fga. */
  lemma EmittedIsWellTyped(b: Binding, permissions: set<Permission>, t: Tuple)
    requires Emitted(b, permissions, t)
    ensures WellTyped(t)
  {
  }
}
