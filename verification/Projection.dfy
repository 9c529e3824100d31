/** The synchronizer: what it keeps over runs, and when it recovers from an interruption. */
module Projection {
  import opened Catalog
  import opened AuthModel
  import opened Compiler
  import opened Lists
  import opened Metadata
  import opened ScopeRules
  import opened Encoding
  import opened Operations
  import opened Invariants

  // ---------------------------------------------------------------- one synchronization

  ghost function Differ<T>(a: set<T>, b: set<T>): set<T> {
    (a - b) + (b - a)
  }

  /** Writing the difference between what was remembered and what is desired brings the engine to
      the desired set exactly when no tuple on which the engine and the memory disagree is one the
      engine has wrong. */
  lemma WriteReachesDesiredIff(engine: set<Tuple>, synced: set<Tuple>, desired: set<Tuple>)
    ensures EngineAfter(engine, synced, desired) == desired <==> Differ(engine, synced) !! Differ(engine, desired)
  {
  }

  ghost predicate Agrees(s: System) {
    s.engine == s.synced
  }

  /** The engine and its memory are exactly the projection of the metadata. */
  ghost predicate Synchronized(s: System) {
    s.engine == s.synced == Desired(s.meta)
  }

  /** When a synchronization without interruption succeeds. */
  lemma SyncSucceedsIff(s: System)
    ensures Sync(s, NoFault).error.None? <==> AllCompile(s.meta) && Recordable(s.meta)
    ensures Sync(s, NoFault).error.None? ==> Sync(s, NoFault).after.synced == Desired(s.meta)
  {
  }

  /** Under every interruption: the metadata stays, the memory moves to the projection on success and
      only then, and the engine is either untouched or follows the projection on exactly the tuples
      where the projection and the memory differ. */
  lemma SyncOutcome(s: System, fault: Fault)
    ensures var o, desired := Sync(s, fault), Desired(s.meta);
            && o.after.meta == s.meta
            && o.after.synced == (if o.error.None? then desired else s.synced)
            && (o.error.None? ==> AllCompile(s.meta) && Recordable(s.meta))
            && (!AllCompile(s.meta) || (fault == WriteFails && desired != s.synced) ==> o.error.Some? && o.after.engine == s.engine)
            && (AllCompile(s.meta) && (fault == WriteFails ==> desired == s.synced) ==>
                  forall t :: t in o.after.engine <==> t in (if (t in desired) != (t in s.synced) then desired else s.engine))
  {
  }

  /** From agreement, a successful synchronization ends synchronized, and any other that is not cut
      between the engine write and its record ends in agreement, however it fails. */
  lemma SyncKeepsAgreement(s: System, fault: Fault)
    requires Agrees(s) && fault != RecordFails && Recordable(s.meta)
    ensures Agrees(Sync(s, fault).after)
    ensures Sync(s, fault).error.None? ==> Synchronized(Sync(s, fault).after)
  {
  }

  // ---------------------------------------------------------------- interruption and recovery

  /** An interruption between the engine write and its record, then other metadata, then a full
      synchronization: the engine ends as the projection of the new metadata exactly when no tuple
      the interrupted write changed has to be changed back. */
  lemma RecoveryIff(s: System, later: Metadata)
    requires Agrees(s) && AllCompile(s.meta) && AllCompile(later) && Recordable(later)
    ensures var cut := Sync(s, RecordFails).after;
            var end := Sync(cut.(meta := later), NoFault);
            && end.error.None? && end.after.synced == Desired(later)
            && (end.after.engine == Desired(later) <==>
                Differ(Desired(s.meta), s.synced) !! Differ(Desired(s.meta), Desired(later)))
  {
    var cut := Sync(s, RecordFails).after;
    WriteReachesDesiredIff(s.engine, s.synced, Desired(s.meta));
    assert cut.engine == Desired(s.meta) && cut.synced == s.synced;
    WriteReachesDesiredIff(cut.engine, cut.synced, Desired(later));
  }

  /** With unchanged metadata the next synchronization always recovers. */
  lemma RepeatRecovers(s: System)
    requires Agrees(s) && AllCompile(s.meta) && Recordable(s.meta)
    ensures var end := Sync(Sync(s, RecordFails).after, NoFault);
            end.error.None? && Synchronized(end.after)
  {
  }

  /** Undoing the interrupted change never recovers: the synchronization succeeds, writes nothing,
      and leaves every tuple of the interrupted write in place. */
  lemma UndoDoesNotRecover(s: System, earlier: Metadata)
    requires Agrees(s) && AllCompile(s.meta) && AllCompile(earlier) && Recordable(earlier)
    requires s.synced == Desired(earlier) && Desired(s.meta) != Desired(earlier)
    ensures var end := Sync(Sync(s, RecordFails).after.(meta := earlier), NoFault);
            end.error.None? && end.after.engine == Desired(s.meta) != Desired(earlier)
  {
    WriteReachesDesiredIff(s.engine, s.synced, Desired(s.meta));
  }

  // ---------------------------------------------------------------- repeated targets

  /** Every exact list is free of repetition. */
  ghost predicate ListsDistinct(m: Metadata) {
    forall id :: id in m.bindings ==> Distinct(Targets(m.bindings[id]))
  }

  lemma DistinctListsAreRecordable(m: Metadata)
    requires ListsDistinct(m)
    ensures Recordable(m)
  {
  }

  /** A stored binding that repeats a target it emits for makes every synchronization fail, although
      its tuples reach the engine. */
  lemma RepeatedTargetBlocksSync(s: System, fault: Fault, id: string)
    requires id in s.meta.bindings && RepeatsTarget(s.meta.bindings[id], PermissionsOf(s.meta, s.meta.bindings[id]))
    ensures Sync(s, fault).error.Some? && Sync(s, fault).after.synced == s.synced
    ensures fault == NoFault && AllCompile(s.meta) && Agrees(s) ==> Sync(s, fault).after.engine == Desired(s.meta)
  {
  }

  predicate DistinctInput(op: Op) {
    op.CreateBinding? && op.input.selector.resources.Some? ==>
      forall i, j :: 0 <= i < j < |op.input.selector.resources.value| ==> op.input.selector.resources.value[i] != op.input.selector.resources.value[j]
  }

  /** How an operation changes the bindings table: not at all, by dropping rows, or by storing one row. */
  lemma PlanBindings(s: System, op: Op)
    requires WellFormed(s.meta) && Plan(s, op).Success?
    ensures Plan(s, op).value.bindings.Keys <= s.meta.bindings.Keys + (if op.CreateBinding? || op.GrantLegacy? then {op.newId} else {})
    ensures forall id :: id in Plan(s, op).value.bindings ==>
              || (op.CreateBinding? && id == op.newId && Plan(s, op).value.bindings[id] == NewBinding(op.input, op.newId))
              || (id in s.meta.bindings && Plan(s, op).value.bindings[id] == s.meta.bindings[id])
              || ((op.GrantLegacy? || op.RevokeLegacy?) && Targets(Plan(s, op).value.bindings[id]) == [ModelRef(op.model)])
  {
    hide Check, ParseAll, Slug.SlugOf, Slug.TrimSpace, BindingsAccept, ValidateBinding, ManagementScope;
    hide Hierarchy, Selectors, References, CleanIds;
    if (op.GrantLegacy? || op.RevokeLegacy?) && HasCompatibility(s.meta, op.user, op.model) {
      var b := s.meta.bindings[CompatibilityId(s.meta, op.user, op.model)];
      assert LegacyShape(b);
    }
  }

  lemma PlanKeepsListsDistinct(s: System, op: Op)
    requires WellFormed(s.meta) && Plan(s, op).Success? && ListsDistinct(s.meta) && DistinctInput(op)
    ensures ListsDistinct(Plan(s, op).value)
  {
    PlanBindings(s, op);
    hide Plan, WellFormed;
    var m := Plan(s, op).value;
    forall id | id in m.bindings ensures Distinct(Targets(m.bindings[id])) {}
  }

  // ---------------------------------------------------------------- operations that do not synchronize

  /** A table grown by new rows only. */
  ghost predicate Grows<K, V>(old_: map<K, V>, new_: map<K, V>) {
    forall k :: k in old_ ==> k in new_ && new_[k] == old_[k]
  }

  /** What the projection depends on: the forest, the memberships, the bindings and their roles. */
  lemma DesiredDependsOn(m: Metadata, m': Metadata)
    requires References(m)
    requires m'.resources == m.resources && m'.members == m.members && m'.bindings == m.bindings && Grows(m.roles, m'.roles)
    ensures Desired(m') == Desired(m)
    ensures AllCompile(m') <==> AllCompile(m)
    ensures Recordable(m') <==> Recordable(m)
  {
    assert forall id :: id in m.bindings ==> ReferencesHold(m, m.bindings[id]) && PermissionsOf(m', m.bindings[id]) == PermissionsOf(m, m.bindings[id]);
    forall t ensures t in BindingTuples(m') <==> t in BindingTuples(m) {
      assert forall id :: id in m.bindings ==> TuplesOf(m', m.bindings[id]) == TuplesOf(m, m.bindings[id]);
    }
  }

  lemma SkippedPlan(s: System, op: Op)
    requires SkipsSync(op) && Hierarchy(s.meta.resources) && Plan(s, op).Success?
    ensures var m' := Plan(s, op).value;
            m'.resources == s.meta.resources && m'.members == s.meta.members && m'.bindings == s.meta.bindings && Grows(s.meta.roles, m'.roles)
  {
    hide Check, ParseAll, RoleNameTaken, Slug.SlugOf, Slug.TrimSpace;
  }

  /** Creating a user, a group or a role changes nothing that is projected, so not synchronizing is right. */
  lemma SkippedSyncIsHarmless(s: System, op: Op, fault: Fault)
    requires WellFormed(s.meta) && SkipsSync(op)
    ensures Hierarchy(s.meta.resources)
    ensures var after := Run(s, op, fault).after;
            && Desired(after.meta) == Desired(s.meta) && after.engine == s.engine && after.synced == s.synced
            && (AllCompile(after.meta) <==> AllCompile(s.meta)) && (Recordable(after.meta) <==> Recordable(s.meta))
  {
    WellFormedHierarchy(s.meta);
    if Plan(s, op).Success? {
      SkippedPlan(s, op);
      DesiredDependsOn(s.meta, Plan(s, op).value);
    }
    hide Plan, WellFormed, Desired, AllCompile, Recordable, Sync, Hierarchy;
  }

  // ---------------------------------------------------------------- whole runs

  datatype Step = Step(op: Op, fault: Fault)

  ghost function Next(s: System, step: Step): (o: Outcome)
    requires WellFormed(s.meta) && FreshFor(s.meta, step.op)
    ensures WellFormed(o.after.meta)
  {
    RunKeeps(s, step.op, step.fault);
    Run(s, step.op, step.fault)
  }

  /** The steps form a run from `s` to `last`, each identifier drawn fresh when it is used. */
  ghost predicate IsRun(s: System, steps: seq<Step>, last: System)
    requires WellFormed(s.meta)
    decreases |steps|
  {
    hide WellFormed, FreshFor, Next;
    if steps == [] then last == s
    else FreshFor(s.meta, steps[0].op) && IsRun(Next(s, steps[0]).after, steps[1..], last)
  }

  lemma {:induction false} RunsStayWellFormed(s: System, steps: seq<Step>, last: System)
    requires WellFormed(s.meta) && IsRun(s, steps, last)
    ensures WellFormed(last.meta)
    decreases |steps|
  {
    hide WellFormed, FreshFor, Next;
    if steps != [] {
      RunsStayWellFormed(Next(s, steps[0]).after, steps[1..], last);
    }
  }

  /** No step is cut between the engine write and its record, and none repeats an exact target. */
  ghost predicate Uncut(steps: seq<Step>) {
    forall i :: 0 <= i < |steps| ==> steps[i].fault != RecordFails && DistinctInput(steps[i].op)
  }

  lemma StepKeepsAgreement(s: System, step: Step)
    requires WellFormed(s.meta) && FreshFor(s.meta, step.op) && Agrees(s) && ListsDistinct(s.meta)
    requires step.fault != RecordFails && DistinctInput(step.op)
    ensures var o := Next(s, step);
            && Agrees(o.after) && ListsDistinct(o.after.meta)
            && (o.error.None? && !SkipsSync(step.op) ==> Synchronized(o.after))
            && (SkipsSync(step.op) && Synchronized(s) ==> Synchronized(o.after))
  {
    WellFormedHierarchy(s.meta);
    if Plan(s, step.op).Success? {
      var m := Plan(s, step.op).value;
      PlanKeepsListsDistinct(s, step.op);
      DistinctListsAreRecordable(m);
      SyncKeepsAgreement(s.(meta := m), step.fault);
    }
    if SkipsSync(step.op) {
      SkippedSyncIsHarmless(s, step.op, step.fault);
    }
    hide Plan, WellFormed, Desired, Sync, ListsDistinct, Recordable, FreshFor, Hierarchy;
  }

  /** Over a whole run without such cuts the engine and the memory agree after every operation, and
      after any successful synchronizing operation both are exactly the projection of the current
      metadata, however many operations before it failed to compile or to write. */
  lemma {:induction false} RunsKeepAgreement(s: System, steps: seq<Step>, last: System)
    requires WellFormed(s.meta) && Agrees(s) && ListsDistinct(s.meta) && IsRun(s, steps, last) && Uncut(steps)
    ensures WellFormed(last.meta) && Agrees(last) && ListsDistinct(last.meta)
    decreases |steps|
  {
    hide WellFormed, FreshFor, ListsDistinct, DistinctInput, Next;
    if steps != [] {
      assert steps[0].fault != RecordFails && DistinctInput(steps[0].op);
      StepKeepsAgreement(s, steps[0]);
      assert Uncut(steps[1..]) by {
        forall i | 0 <= i < |steps[1..]| ensures steps[1..][i].fault != RecordFails && DistinctInput(steps[1..][i].op) {
          assert steps[1..][i] == steps[i + 1];
        }
      }
      RunsKeepAgreement(Next(s, steps[0]).after, steps[1..], last);
    }
  }
}
