/** Listing the desired tuples, and the bookkeeping of one operation. */
module Synchronizer {
  import opened Catalog
  import opened AuthModel
  import opened Compiler
  import opened Lists
  import opened Metadata
  import opened ScopeRules
  import opened Diff
  import Encoding
  import opened Operations
  import opened Invariants
  import opened Projection
  import opened ReachableStates

  // ---------------------------------------------------------------- the desired list

  /** The parent tuples, in some order of the rows, none twice. */
  method ParentList(rs: Resources) returns (list: seq<Tuple>)
    ensures Elements(list) == ParentTuples(rs) && Distinct(list)
  {
    list := [];
    var pending := rs.Keys;
    while pending != {}
      invariant pending <= rs.Keys && Distinct(list)
      invariant Elements(list) == set r | r in rs.Keys - pending && rs[r].parent.Some? :: ParentTuple(r, rs[r].parent.value)
    {
      var r :| r in pending;
      pending := pending - {r};
      if rs[r].parent.Some? {
        var t := ParentTuple(r, rs[r].parent.value);
        assert t !in Elements(list);
        DistinctAppend(list, [t]);
        assert Elements(list + [t]) == Elements(list) + {t};
        list := list + [t];
      }
    }
  }

  method MembershipList(m: Metadata) returns (list: seq<Tuple>)
    ensures Elements(list) == MembershipTuples(m) && Distinct(list)
  {
    list := [];
    var pending := m.members;
    while pending != {}
      invariant pending <= m.members && Distinct(list)
      invariant Elements(list) == set gm | gm in m.members - pending :: MembershipTuple(gm.0, gm.1)
    {
      var gm :| gm in pending;
      pending := pending - {gm};
      var t := MembershipTuple(gm.0, gm.1);
      assert t !in Elements(list);
      DistinctAppend(list, [t]);
      assert Elements(list + [t]) == Elements(list) + {t};
      list := list + [t];
    }
  }

  /** The tuples of the bindings named in `done`. */
  ghost function TuplesOfAll(m: Metadata, done: set<string>): set<Tuple>
    requires done <= m.bindings.Keys
  {
    set id, t | id in done && t in TuplesOf(m, m.bindings[id]) :: t
  }

  /** One binding: its list is its tuple set, and repeats a tuple exactly when it repeats a target. */
  lemma BindingListed(b: Binding, list: seq<Permission>, permissions: set<Permission>)
    requires Sorted(list) && Elements(list) == permissions
    ensures TupleList(b, list).Some? <==> Compiles(b, permissions)
    ensures TupleList(b, list).Some? ==>
              var tuples := TupleList(b, list).value + [SubjectTuple(b)];
              && Elements(tuples) == GrantTuples(b, permissions) + {SubjectTuple(b)}
              && (Distinct(tuples) <==> !RepeatsTarget(b, permissions))
  {
    TupleListContents(b, list);
    SortedIsDistinct(list);
    if TupleList(b, list).Some? {
      var tuples := TupleList(b, list).value;
      RowsDistinct(b, list);
      forall t ensures t in Elements(tuples) <==> t in GrantTuples(b, permissions) {
        GrantTuplesAreEmitted(b, permissions, t);
      }
      hide TupleList, RepeatsTarget, Compiles, Sorted;
      assert SubjectTuple(b) !in GrantTuples(b, permissions);
      assert Elements([SubjectTuple(b)]) == {SubjectTuple(b)};
      DisjointAppend(tuples, [SubjectTuple(b)]);
    }
  }

  lemma OneMoreBinding(m: Metadata, done: set<string>, id: string)
    requires KeyedById(m) && done <= m.bindings.Keys && id in m.bindings && id !in done
    ensures TuplesOfAll(m, done + {id}) == TuplesOfAll(m, done) + TuplesOf(m, m.bindings[id])
    ensures TuplesOfAll(m, done) !! TuplesOf(m, m.bindings[id])
  {
  }

  /** `tuples` lists the bindings named in `done`: all of them compile, and a tuple is repeated exactly
      when one of them lists a target twice that it emits for. */
  ghost predicate Listed(m: Metadata, done: set<string>, tuples: seq<Tuple>)
    requires done <= m.bindings.Keys
  {
    && Elements(tuples) == TuplesOfAll(m, done)
    && (Distinct(tuples) <==> forall id :: id in done ==> !RepeatsTarget(m.bindings[id], PermissionsOf(m, m.bindings[id])))
    && forall id :: id in done ==> BindingCompiles(m, m.bindings[id])
  }

  lemma NothingListed(m: Metadata)
    ensures Listed(m, {}, [])
  {
  }

  lemma AllListed(m: Metadata, tuples: seq<Tuple>)
    requires Listed(m, m.bindings.Keys, tuples)
    ensures AllCompile(m) && Elements(tuples) == BindingTuples(m) && (Distinct(tuples) <==> Recordable(m))
  {
  }

  /** One binding more: it compiles exactly when the compiler returns its tuples, and then they join
      the list. */
  lemma OneMoreListed(m: Metadata, done: set<string>, id: string, tuples: seq<Tuple>, permissions: seq<Permission>)
    requires KeyedById(m) && done <= m.bindings.Keys && id in m.bindings && id !in done && Listed(m, done, tuples)
    requires m.bindings[id].roleId in m.roles && Sorted(permissions) && Elements(permissions) == m.roles[m.bindings[id].roleId].permissions
    ensures TupleList(m.bindings[id], permissions).Some? <==> BindingCompiles(m, m.bindings[id])
    ensures TupleList(m.bindings[id], permissions).Some? ==>
              Listed(m, done + {id}, tuples + (TupleList(m.bindings[id], permissions).value + [SubjectTuple(m.bindings[id])]))
  {
    var b := m.bindings[id];
    BindingListed(b, permissions, PermissionsOf(m, b));
    OneMoreBinding(m, done, id);
    hide RepeatsTarget, Compiles, Sorted, TupleList, GrantTuples, TuplesOfAll, Distinct, Elements;
    if TupleList(b, permissions).Some? {
      DisjointAppend(tuples, TupleList(b, permissions).value + [SubjectTuple(b)]);
    }
  }

  /** The tuples of all bindings, in some order, or nothing when one of them does not compile. */
  method BindingList(m: Metadata) returns (list: Option<seq<Tuple>>)
    requires KeyedById(m)
    ensures list.Some? <==> AllCompile(m)
    ensures list.Some? ==> Elements(list.value) == BindingTuples(m) && (Distinct(list.value) <==> Recordable(m))
  {
    var tuples: seq<Tuple> := [];
    var pending := m.bindings.Keys;
    NothingListed(m);
    assert m.bindings.Keys - pending == {};
    hide Listed, TupleList, Compiles, Sorted, KeyedById, BindingTuples, Recordable, Distinct, TuplesOf;
    while pending != {}
      invariant pending <= m.bindings.Keys && Listed(m, m.bindings.Keys - pending, tuples)
    {
      var id :| id in pending;
      var b := m.bindings[id];
      if b.roleId !in m.roles {
        assert !BindingCompiles(m, b);
        return None;
      }
      var permissions := SortedList(m.roles[b.roleId].permissions);
      var compiled := PermissionTuples(b, permissions);
      OneMoreListed(m, m.bindings.Keys - pending, id, tuples, permissions);
      if compiled.None? {
        return None;
      }
      tuples := tuples + (compiled.value + [SubjectTuple(b)]);
      assert m.bindings.Keys - (pending - {id}) == m.bindings.Keys - pending + {id};
      pending := pending - {id};
    }
    assert m.bindings.Keys - pending == m.bindings.Keys;
    AllListed(m, tuples);
    list := Some(tuples);
  }

  /** The three lists name different kinds of objects or users, so they share no tuple. */
  lemma ListsAreApart(m: Metadata)
    ensures ParentTuples(m.resources) !! MembershipTuples(m)
    ensures (ParentTuples(m.resources) + MembershipTuples(m)) !! BindingTuples(m)
  {
  }

  /** The whole desired list: it is the projection, and has no tuple twice exactly when no binding
      repeats a target it emits for. */
  lemma DesiredListed(m: Metadata, parents: seq<Tuple>, memberships: seq<Tuple>, grants: seq<Tuple>)
    requires Elements(parents) == ParentTuples(m.resources) && Distinct(parents)
    requires Elements(memberships) == MembershipTuples(m) && Distinct(memberships)
    requires Elements(grants) == BindingTuples(m) && (Distinct(grants) <==> Recordable(m))
    ensures Elements(parents + memberships + grants) == Desired(m)
    ensures Distinct(parents + memberships + grants) <==> Recordable(m)
  {
    ListsAreApart(m);
    hide ParentTuples, MembershipTuples, BindingTuples, Recordable;
    hide Elements, Distinct;
    DisjointAppend(parents, memberships);
    DisjointAppend(parents + memberships, grants);
  }

  /** Parents, then memberships, then the tuples of every binding. */
  method DesiredTuples(m: Metadata) returns (desired: Option<seq<Tuple>>)
    requires KeyedById(m)
    ensures desired.Some? <==> AllCompile(m)
    ensures desired.Some? ==> Elements(desired.value) == Desired(m) && (Distinct(desired.value) <==> Recordable(m))
  {
    var parents := ParentList(m.resources);
    var memberships := MembershipList(m);
    var grants := BindingList(m);
    if grants.None? {
      return None;
    }
    DesiredListed(m, parents, memberships, grants.value);
    hide *;
    desired := Some(parents + memberships + grants.value);
  }

  // ---------------------------------------------------------------- one operation

  /** The invariant of the service over its stores. */
  ghost predicate SystemOk(s: System) {
    WellFormed(s.meta) && AllClean(s.synced)
  }

  /** `after` and `error` are what operation `op` does to `s`. */
  ghost predicate Ran(s: System, op: Op, fault: Fault, after: System, error: Option<Error>) {
    Hierarchy(s.meta.resources) && Outcome(after, error) == Run(s, op, fault)
  }

  lemma ProjectionIsClean(m: Metadata)
    requires WellFormed(m)
    ensures AllClean(Desired(m)) && forall t :: t in Desired(m) ==> WellTyped(t)
  {
    forall t | t in Desired(m) ensures WellTyped(t) && Encoding.CleanTuple(t) {
      ProjectionIsWellTyped(m, t);
    }
  }

  lemma SyncKeepsOk(s: System, fault: Fault)
    requires SystemOk(s)
    ensures SystemOk(Operations.Sync(s, fault).after)
  {
    ProjectionIsClean(s.meta);
    hide WellFormed, Desired, AllCompile, Recordable, EngineAfter, AllClean;
  }

  /** An operation refused by its guards changes nothing. */
  lemma Refused(s: System, op: Op, fault: Fault, e: Error)
    requires SystemOk(s) && Plan(s, op) == Failure(e)
    ensures Ran(s, op, fault, s, Some(e))
  {
    hide Plan;
  }

  /** An operation whose plan is stored leaves the stores ready to be synchronized. */
  lemma Planned(s: System, op: Op, m: Metadata)
    requires SystemOk(s) && FreshFor(s.meta, op) && Plan(s, op) == Success(m)
    ensures SystemOk(s.(meta := m))
  {
    PlanKeeps(s, op);
    hide Plan, WellFormed;
  }

  lemma RanThroughSync(s: System, op: Op, fault: Fault, m: Metadata, o: Outcome)
    requires SystemOk(s) && Plan(s, op) == Success(m) && !SkipsSync(op) && o == Operations.Sync(s.(meta := m), fault)
    ensures Ran(s, op, fault, o.after, o.error)
  {
    hide Plan, Operations.Sync;
  }

  lemma RanWithoutSync(s: System, op: Op, fault: Fault, m: Metadata)
    requires SystemOk(s) && Plan(s, op) == Success(m) && SkipsSync(op)
    ensures Ran(s, op, fault, s.(meta := m), None)
  {
    hide Plan;
  }
}
